/** `process_lines`: the line-driven state machine that decodes each input
    line, classifies it by its colour-stripped, terminator-trimmed key,
    appends the raw line to the patch under construction and hands each
    finished patch to `process_patch`. */
module Builder {
  import opened Util
  import opened ParseArgs
  import opened Patch
  import opened Engine

  newtype byte = b: int | 0 <= b < 256

  /** Where the reader is inside the current patch. */
  datatype State = Start | PatchHeader | FileHeader | HunkHead | HunkBodyDiff | HunkBodyTail

  /** The code the program calls but does not define: `strip_ansi_codes`,
      the UTF-8 validity test of `String::from_utf8`, the string it
      yields for valid input, and `String::from_utf8_lossy`. */
  datatype Env = Env(
    strip: string -> string,
    valid: seq<byte> -> bool,
    decode: seq<byte> -> string,
    lossy: seq<byte> -> string)

  const NoNewlineMarker := "\\ No newline at end of file"

  // ---------------------------------------------------------------------
  // Decoding and the classification key

  /** The line the configured strategy makes of the raw bytes; `lineNumber`
      counts from 1. Under `SkipLine` an invalid line is replaced by a
      default chosen by state, which is then processed like any other. */
  function Decode(strategy: Utf8Strategy, env: Env, state: State, raw: seq<byte>, lineNumber: nat): (r: Result<string, Fatal>)
    ensures r.Err? <==> strategy == Panic && !env.valid(raw)
    ensures r.Err? ==> r.error == InvalidUtf8(lineNumber)
    ensures strategy == Lossy ==> r == Ok(env.lossy(raw))
    ensures strategy != Lossy && env.valid(raw) ==> r == Ok(env.decode(raw))
    ensures strategy == SkipLine && !env.valid(raw) ==> r == Ok(if state == HunkHead then "+" else " ")
  {
    match strategy
    case Lossy => Ok(env.lossy(raw))
    case Panic => if env.valid(raw) then Ok(env.decode(raw)) else Err(InvalidUtf8(lineNumber))
    case SkipLine =>
      var defaultValue := match state { case HunkHead => "+" case _ => " " };
      Ok(if env.valid(raw) then env.decode(raw) else defaultValue)
  }

  /** Removes one trailing "\n" and, only after that, one "\r". */
  function TrimTerminator(s: string): (r: string)
    ensures StartsWith(s, r)
    ensures !EndsWith(s, "\n") ==> r == s
    ensures EndsWith(s, "\r\n") ==> s == r + "\r\n"
    ensures EndsWith(s, "\n") && !EndsWith(s, "\r\n") ==> s == r + "\n"
  {
    if EndsWith(s, "\n") then
      var t := s[..|s| - 1];
      assert EndsWith(s, "\r\n") <==> EndsWith(t, "\r");
      if EndsWith(t, "\r") then
        assert s == t[..|t| - 1] + "\r\n";
        t[..|t| - 1]
      else
        assert s == t + "\n";
        t
    else s
  }

  /** What a line is classified by: its colour-stripped copy without the
      line terminator. The line itself is what gets stored. */
  function Key(strip: string -> string, line: string): string {
    TrimTerminator(strip(line))
  }

  /** The key tests the state machine makes; they are mutually exclusive,
      so one kind describes which of them a key passes. */
  datatype LineKind = CommitLine | DiffGitLine | RangeLine | ChangeLine | SpaceLine | BlankLine | NoNewlineLine | OtherLine

  function Classify(key: string): (r: LineKind)
    ensures r == CommitLine <==> StartsWith(key, "commit ")
    ensures r == DiffGitLine <==> StartsWith(key, "diff --git")
    ensures r == RangeLine <==> StartsWith(key, "@@")
    ensures r == ChangeLine <==> StartsWith(key, "+") || StartsWith(key, "-")
    ensures r == SpaceLine <==> StartsWith(key, " ")
    ensures r == BlankLine <==> key == ""
    ensures r == NoNewlineLine <==> key == NoNewlineMarker
  {
    // the tests are told apart by the key's first character
    assert StartsWith(key, "commit ") ==> key[..7][0] == 'c';
    assert StartsWith(key, "diff --git") ==> key[..10][0] == 'd';
    assert StartsWith(key, "@@") ==> key[..2][0] == '@';
    assert StartsWith(key, "+") ==> key[..1][0] == '+';
    assert StartsWith(key, "-") ==> key[..1][0] == '-';
    assert StartsWith(key, " ") ==> key[..1][0] == ' ';
    assert key == NoNewlineMarker ==> key[0] == '\\';
    if StartsWith(key, "commit ") then CommitLine
    else if StartsWith(key, "diff --git") then DiffGitLine
    else if StartsWith(key, "@@") then RangeLine
    else if StartsWith(key, "+") || StartsWith(key, "-") then ChangeLine
    else if StartsWith(key, " ") then SpaceLine
    else if key == "" then BlankLine
    else if key == NoNewlineMarker then NoNewlineLine
    else OtherLine
  }

  /** A context-class key inside a hunk body. */
  predicate IsContextKind(kind: LineKind) {
    kind == SpaceLine || kind == BlankLine || kind == NoNewlineLine
  }

  // ---------------------------------------------------------------------
  // The transition table

  /** What a step does with the line. `StartPatch(true)` first hands the
      old patch to `process_patch`; `StartPatch(false)` drops it. */
  datatype Action =
    | StartPatch(flush: bool)
    | AppendPatchHeader
    | StartFile
    | AppendFileHeader
    | StartHunk
    | AppendContextHead
    | StartDiff
    | AppendDiff
    | AppendContextTail

  datatype Move = Move(next: State, action: Action)

  function Transition(state: State, kind: LineKind): (r: Result<Move, Fatal>)
    ensures r.Err? <==> match state
      case Start => kind != CommitLine
      case HunkHead => kind != SpaceLine && kind != ChangeLine
      case HunkBodyDiff => kind == RangeLine || kind == OtherLine
      case HunkBodyTail => kind == OtherLine
      case _ => false
    ensures (r.Ok? && r.value.action == StartPatch(true)) <==> (state == HunkBodyTail && kind == CommitLine)
    ensures r.Ok? && r.value.action.StartPatch? ==> kind == CommitLine && r.value.next == PatchHeader
  {
    match state
    case Start =>
      if kind == CommitLine then Ok(Move(PatchHeader, StartPatch(false))) else Err(ExpectedCommit)
    case PatchHeader =>
      if kind == DiffGitLine then Ok(Move(FileHeader, StartFile)) else Ok(Move(PatchHeader, AppendPatchHeader))
    case FileHeader =>
      if kind == RangeLine then Ok(Move(HunkHead, StartHunk)) else Ok(Move(FileHeader, AppendFileHeader))
    case HunkHead =>
      if kind == SpaceLine then Ok(Move(HunkHead, AppendContextHead))
      else if kind == ChangeLine then Ok(Move(HunkBodyDiff, StartDiff))
      else Err(UnknownInHunkHead)
    case HunkBodyDiff =>
      if kind == ChangeLine then Ok(Move(HunkBodyDiff, AppendDiff))
      else if IsContextKind(kind) then Ok(Move(HunkBodyTail, AppendContextTail))
      else if kind == DiffGitLine then Ok(Move(FileHeader, StartFile))
      else if kind == CommitLine then Ok(Move(PatchHeader, StartPatch(false)))
      else Err(UnknownInHunkBody)
    case HunkBodyTail =>
      if IsContextKind(kind) then Ok(Move(HunkBodyTail, AppendContextTail))
      else if kind == ChangeLine then Ok(Move(HunkBodyDiff, AppendDiff))
      else if kind == RangeLine then Ok(Move(HunkHead, StartHunk))
      else if kind == DiffGitLine then Ok(Move(FileHeader, StartFile))
      else if kind == CommitLine then Ok(Move(PatchHeader, StartPatch(true)))
      else Err(UnknownInHunkTail)
  }

  // ---------------------------------------------------------------------
  // Appending to the last file, hunk or diff block

  function Last<T>(s: seq<T>): T
    requires s != []
  {
    s[|s| - 1]
  }

  function WithLast<T>(s: seq<T>, x: T): seq<T>
    requires s != []
  {
    s[..|s| - 1] + [x]
  }

  predicate HasFile(p: Patch) {
    p.files != []
  }

  predicate HasHunk(p: Patch) {
    HasFile(p) && Last(p.files).hunks != []
  }

  predicate HasDiff(p: Patch) {
    HasHunk(p) && Last(Last(p.files).hunks).diffs != []
  }

  function LastFile(p: Patch): FileDiff
    requires HasFile(p)
  {
    Last(p.files)
  }

  function LastHunk(p: Patch): Hunk
    requires HasHunk(p)
  {
    Last(LastFile(p).hunks)
  }

  function LastDiff(p: Patch): HunkDiffWithTail
    requires HasDiff(p)
  {
    Last(LastHunk(p).diffs)
  }

  function UpdateLastFile(p: Patch, f: FileDiff): (r: Patch)
    requires HasFile(p)
    ensures HasFile(r) && LastFile(r) == f
    ensures r.patch_header == p.patch_header && |r.files| == |p.files|
  {
    p.(files := WithLast(p.files, f))
  }

  function UpdateLastHunk(p: Patch, h: Hunk): (r: Patch)
    requires HasHunk(p)
    ensures HasHunk(r) && LastHunk(r) == h
    ensures r.patch_header == p.patch_header && |r.files| == |p.files|
    ensures |LastFile(r).hunks| == |LastFile(p).hunks|
  {
    var f := LastFile(p);
    UpdateLastFile(p, f.(hunks := WithLast(f.hunks, h)))
  }

  function UpdateLastDiff(p: Patch, d: HunkDiffWithTail): (r: Patch)
    requires HasDiff(p)
    ensures HasDiff(r) && LastDiff(r) == d
    ensures r.patch_header == p.patch_header && |r.files| == |p.files|
    ensures |LastFile(r).hunks| == |LastFile(p).hunks| && |LastHunk(r).diffs| == |LastHunk(p).diffs|
  {
    var h := LastHunk(p);
    UpdateLastHunk(p, h.(diffs := WithLast(h.diffs, d)))
  }

  /** Writing back the last diff block leaves every earlier file, hunk and
      block, and the last hunk's header and leading context, as they were. */
  lemma UpdateLastDiffKeepsEarlier(p: Patch, d: HunkDiffWithTail)
    requires HasDiff(p)
    ensures var r := UpdateLastDiff(p, d);
      && r.files[..|r.files| - 1] == p.files[..|p.files| - 1]
      && LastFile(r).file_header == LastFile(p).file_header
      && LastFile(r).hunks[..|LastFile(r).hunks| - 1] == LastFile(p).hunks[..|LastFile(p).hunks| - 1]
      && LastHunk(r).header == LastHunk(p).header
      && LastHunk(r).context_head == LastHunk(p).context_head
      && LastHunk(r).diffs[..|LastHunk(r).diffs| - 1] == LastHunk(p).diffs[..|LastHunk(p).diffs| - 1]
  {
  }

  function NewPatch(line: string): (r: Patch)
    ensures r.patch_header.lines == [line] && r.files == []
    ensures Document(r) == [TaggedLine(PatchHeaderSection, line)]
  {
    assert [line][1..] == [];
    assert Tag(PatchHeaderSection, [line]) == [TaggedLine(PatchHeaderSection, line)];
    assert FlatMap([], FileDoc) == [];
    Patch(ChunkFrom(line), [])
  }

  function PushPatchHeader(p: Patch, line: string): (r: Patch)
    ensures r.patch_header.lines == p.patch_header.lines + [line] && r.files == p.files
  {
    p.(patch_header := Chunk(p.patch_header.lines + [line]))
  }

  function PushFile(p: Patch, line: string): (r: Patch)
    ensures HasFile(r) && LastFile(r) == FileDiff(ChunkFrom(line), [])
    ensures r.patch_header == p.patch_header && |r.files| == |p.files| + 1
  {
    p.(files := p.files + [FileDiff(ChunkFrom(line), [])])
  }

  function PushFileHeader(p: Patch, line: string): (r: Patch)
    requires HasFile(p)
    ensures HasFile(r) && LastFile(r).hunks == LastFile(p).hunks
    ensures LastFile(r).file_header.lines == LastFile(p).file_header.lines + [line]
    ensures r.patch_header == p.patch_header && |r.files| == |p.files|
  {
    var f := LastFile(p);
    UpdateLastFile(p, f.(file_header := Chunk(f.file_header.lines + [line])))
  }

  function PushHunk(p: Patch, line: string): (r: Patch)
    requires HasFile(p)
    ensures HasHunk(r) && LastHunk(r) == Hunk(line, ChunkEmpty(), [])
    ensures r.patch_header == p.patch_header
  {
    var f := LastFile(p);
    UpdateLastFile(p, f.(hunks := f.hunks + [Hunk(line, ChunkEmpty(), [])]))
  }

  function PushContextHead(p: Patch, line: string): (r: Patch)
    requires HasHunk(p)
    ensures HasHunk(r) && LastHunk(r).diffs == LastHunk(p).diffs
    ensures LastHunk(r).context_head.lines == LastHunk(p).context_head.lines + [line]
    ensures LastHunk(r).header == LastHunk(p).header
    ensures r.patch_header == p.patch_header && |r.files| == |p.files|
  {
    var h := LastHunk(p);
    UpdateLastHunk(p, h.(context_head := Chunk(h.context_head.lines + [line])))
  }

  function PushDiffBlock(p: Patch, line: string): (r: Patch)
    requires HasHunk(p)
    ensures HasDiff(r) && LastDiff(r) == HunkDiffWithTail(ChunkFrom(line), ChunkEmpty())
    ensures r.patch_header == p.patch_header
  {
    var h := LastHunk(p);
    UpdateLastHunk(p, h.(diffs := h.diffs + [HunkDiffWithTail(ChunkFrom(line), ChunkEmpty())]))
  }

  function PushDiffLine(p: Patch, line: string): (r: Patch)
    requires HasDiff(p)
    ensures HasDiff(r) && LastDiff(r).diff.lines == LastDiff(p).diff.lines + [line]
    ensures LastDiff(r).context_tail == LastDiff(p).context_tail
    ensures r.patch_header == p.patch_header && |r.files| == |p.files|
    ensures |LastFile(r).hunks| == |LastFile(p).hunks| && |LastHunk(r).diffs| == |LastHunk(p).diffs|
  {
    var d := LastDiff(p);
    UpdateLastDiff(p, d.(diff := Chunk(d.diff.lines + [line])))
  }

  function PushContextTail(p: Patch, line: string): (r: Patch)
    requires HasDiff(p)
    ensures HasDiff(r) && LastDiff(r).diff == LastDiff(p).diff
    ensures LastDiff(r).context_tail.lines == LastDiff(p).context_tail.lines + [line]
    ensures r.patch_header == p.patch_header
  {
    var d := LastDiff(p);
    UpdateLastDiff(p, d.(context_tail := Chunk(d.context_tail.lines + [line])))
  }

  /** The shape an action relies on: the `last_mut().expect(..)` calls
      find their element, and a chunk that is appended to is the last
      thing in the document. */
  predicate Fits(p: Patch, action: Action) {
    match action
    case StartPatch(_) => true
    case AppendPatchHeader => p.files == []
    case StartFile => true
    case AppendFileHeader => HasFile(p) && LastFile(p).hunks == []
    case StartHunk => HasFile(p)
    case AppendContextHead => HasHunk(p) && LastHunk(p).diffs == []
    case StartDiff => HasHunk(p)
    case AppendDiff => HasDiff(p)
    case AppendContextTail => HasDiff(p)
  }

  function Apply(p: Patch, action: Action, line: string): (r: Patch)
    requires Fits(p, action)
    ensures action.StartPatch? ==> r.patch_header.lines == [line] && r.files == []
    ensures action == StartFile ==> |r.files| == |p.files| + 1
    ensures !action.StartPatch? && action != StartFile ==> |r.files| == |p.files|
    ensures !action.StartPatch? && action != AppendPatchHeader ==> r.patch_header == p.patch_header
  {
    match action
    case StartPatch(_) => NewPatch(line)
    case AppendPatchHeader => PushPatchHeader(p, line)
    case StartFile => PushFile(p, line)
    case AppendFileHeader => PushFileHeader(p, line)
    case StartHunk => PushHunk(p, line)
    case AppendContextHead => PushContextHead(p, line)
    case StartDiff => PushDiffBlock(p, line)
    case AppendDiff => PushDiffLine(p, line)
    case AppendContextTail => PushContextTail(p, line)
  }

  /** The section the stored line lands in. */
  function SectionOf(action: Action): Section {
    match action
    case StartPatch(_) => PatchHeaderSection
    case AppendPatchHeader => PatchHeaderSection
    case StartFile => FileHeaderSection
    case AppendFileHeader => FileHeaderSection
    case StartHunk => ContextSection
    case AppendContextHead => ContextSection
    case StartDiff => DiffSection
    case AppendDiff => DiffSection
    case AppendContextTail => ContextSection
  }

  /** How far from the end of the document the line is inserted: a
      changed line joins the last diff block ahead of its trailing
      context; everything else is appended at the very end. */
  function Back(p: Patch, action: Action): nat
    requires Fits(p, action)
  {
    if action == AppendDiff then |LastDiff(p).context_tail.lines| else 0
  }

  function InsertFromEnd<T>(s: seq<T>, back: nat, x: T): seq<T>
    requires back <= |s|
  {
    s[..|s| - back] + [x] + s[|s| - back..]
  }

  // ---------------------------------------------------------------------
  // Each stored line lands in exactly one place of the document

  lemma InsertFromEndConcat<T>(a: seq<T>, b: seq<T>, back: nat, x: T)
    requires back <= |b|
    ensures InsertFromEnd(a + b, back, x) == a + InsertFromEnd(b, back, x)
  {
    assert (a + b)[..|a + b| - back] == a + b[..|b| - back];
    assert (a + b)[|a + b| - back..] == b[|b| - back..];
  }

  lemma FlatMapUpdateLast<T, U>(xs: seq<T>, y: T, f: T -> seq<U>, back: nat, u: U)
    requires xs != [] && back <= |f(Last(xs))|
    requires f(y) == InsertFromEnd(f(Last(xs)), back, u)
    ensures back <= |FlatMap(xs, f)|
    ensures FlatMap(WithLast(xs, y), f) == InsertFromEnd(FlatMap(xs, f), back, u)
  {
    var init := xs[..|xs| - 1];
    assert xs == init + [Last(xs)];
    FlatMapSnoc(init, Last(xs), f);
    FlatMapSnoc(init, y, f);
    InsertFromEndConcat(FlatMap(init, f), f(Last(xs)), back, u);
  }

  lemma UpdateLastFileDoc(p: Patch, f: FileDiff, back: nat, t: TaggedLine)
    requires HasFile(p) && back <= |FileDoc(LastFile(p))|
    requires FileDoc(f) == InsertFromEnd(FileDoc(LastFile(p)), back, t)
    ensures back <= |Document(p)|
    ensures Document(UpdateLastFile(p, f)) == InsertFromEnd(Document(p), back, t)
  {
    FlatMapUpdateLast(p.files, f, FileDoc, back, t);
    InsertFromEndConcat(Tag(PatchHeaderSection, p.patch_header.lines), FlatMap(p.files, FileDoc), back, t);
  }

  lemma UpdateLastHunkDoc(p: Patch, h: Hunk, back: nat, t: TaggedLine)
    requires HasHunk(p) && back <= |HunkDoc(LastHunk(p))|
    requires HunkDoc(h) == InsertFromEnd(HunkDoc(LastHunk(p)), back, t)
    ensures back <= |Document(p)|
    ensures Document(UpdateLastHunk(p, h)) == InsertFromEnd(Document(p), back, t)
  {
    var f := LastFile(p);
    FlatMapUpdateLast(f.hunks, h, HunkDoc, back, t);
    InsertFromEndConcat(Tag(FileHeaderSection, f.file_header.lines), FlatMap(f.hunks, HunkDoc), back, t);
    UpdateLastFileDoc(p, f.(hunks := WithLast(f.hunks, h)), back, t);
  }

  lemma UpdateLastDiffDoc(p: Patch, d: HunkDiffWithTail, back: nat, t: TaggedLine)
    requires HasDiff(p) && back <= |DiffDoc(LastDiff(p))|
    requires DiffDoc(d) == InsertFromEnd(DiffDoc(LastDiff(p)), back, t)
    ensures back <= |Document(p)|
    ensures Document(UpdateLastDiff(p, d)) == InsertFromEnd(Document(p), back, t)
  {
    var h := LastHunk(p);
    var head := [TaggedLine(ContextSection, h.header)] + Tag(ContextSection, h.context_head.lines);
    FlatMapUpdateLast(h.diffs, d, DiffDoc, back, t);
    InsertFromEndConcat(head, FlatMap(h.diffs, DiffDoc), back, t);
    UpdateLastHunkDoc(p, h.(diffs := WithLast(h.diffs, d)), back, t);
  }

  lemma InsertAtEnd<T>(s: seq<T>, x: T)
    ensures InsertFromEnd(s, 0, x) == s + [x]
  {
    assert s[..|s|] == s;
  }

  lemma PatchHeaderDoc(p: Patch, line: string)
    requires p.files == []
    ensures Document(PushPatchHeader(p, line)) == Document(p) + [TaggedLine(PatchHeaderSection, line)]
  {
    TagAppend(PatchHeaderSection, p.patch_header.lines, line);
  }

  lemma FileDocAppended(p: Patch, line: string)
    ensures Document(PushFile(p, line)) == Document(p) + [TaggedLine(FileHeaderSection, line)]
  {
    var t := TaggedLine(FileHeaderSection, line);
    assert Tag(FileHeaderSection, [line]) == [t] + Tag(FileHeaderSection, []);
    FlatMapSnoc(p.files, FileDiff(ChunkFrom(line), []), FileDoc);
  }

  lemma FileHeaderDoc(p: Patch, line: string)
    requires HasFile(p) && LastFile(p).hunks == []
    ensures Document(PushFileHeader(p, line)) == Document(p) + [TaggedLine(FileHeaderSection, line)]
  {
    var t := TaggedLine(FileHeaderSection, line);
    var f := LastFile(p);
    TagAppend(FileHeaderSection, f.file_header.lines, line);
    InsertAtEnd(FileDoc(f), t);
    UpdateLastFileDoc(p, f.(file_header := Chunk(f.file_header.lines + [line])), 0, t);
    InsertAtEnd(Document(p), t);
  }

  lemma HunkDocAppended(p: Patch, line: string)
    requires HasFile(p)
    ensures Document(PushHunk(p, line)) == Document(p) + [TaggedLine(ContextSection, line)]
  {
    var t := TaggedLine(ContextSection, line);
    var f := LastFile(p);
    var h := Hunk(line, ChunkEmpty(), []);
    assert HunkDoc(h) == [t];
    FlatMapSnoc(f.hunks, h, HunkDoc);
    InsertAtEnd(FileDoc(f), t);
    UpdateLastFileDoc(p, f.(hunks := f.hunks + [h]), 0, t);
    InsertAtEnd(Document(p), t);
  }

  lemma ContextHeadDoc(p: Patch, line: string)
    requires HasHunk(p) && LastHunk(p).diffs == []
    ensures Document(PushContextHead(p, line)) == Document(p) + [TaggedLine(ContextSection, line)]
  {
    var t := TaggedLine(ContextSection, line);
    var h := LastHunk(p);
    TagAppend(ContextSection, h.context_head.lines, line);
    InsertAtEnd(HunkDoc(h), t);
    UpdateLastHunkDoc(p, h.(context_head := Chunk(h.context_head.lines + [line])), 0, t);
    InsertAtEnd(Document(p), t);
  }

  lemma DiffBlockDoc(p: Patch, line: string)
    requires HasHunk(p)
    ensures Document(PushDiffBlock(p, line)) == Document(p) + [TaggedLine(DiffSection, line)]
  {
    var t := TaggedLine(DiffSection, line);
    var h := LastHunk(p);
    var d := HunkDiffWithTail(ChunkFrom(line), ChunkEmpty());
    assert Tag(DiffSection, [line]) == [t] + Tag(DiffSection, []);
    assert DiffDoc(d) == [t];
    FlatMapSnoc(h.diffs, d, DiffDoc);
    InsertAtEnd(HunkDoc(h), t);
    UpdateLastHunkDoc(p, h.(diffs := h.diffs + [d]), 0, t);
    InsertAtEnd(Document(p), t);
  }

  lemma DiffLineDoc(p: Patch, line: string)
    requires HasDiff(p)
    ensures |LastDiff(p).context_tail.lines| <= |Document(p)|
    ensures Document(PushDiffLine(p, line))
      == InsertFromEnd(Document(p), |LastDiff(p).context_tail.lines|, TaggedLine(DiffSection, line))
  {
    var t := TaggedLine(DiffSection, line);
    var d := LastDiff(p);
    var back := |d.context_tail.lines|;
    TagAppend(DiffSection, d.diff.lines, line);
    TagLength(ContextSection, d.context_tail.lines);
    InsertFromEndConcat(Tag(DiffSection, d.diff.lines), Tag(ContextSection, d.context_tail.lines), back, t);
    assert Tag(ContextSection, d.context_tail.lines)[..0] == [];
    UpdateLastDiffDoc(p, d.(diff := Chunk(d.diff.lines + [line])), back, t);
  }

  lemma ContextTailDoc(p: Patch, line: string)
    requires HasDiff(p)
    ensures Document(PushContextTail(p, line)) == Document(p) + [TaggedLine(ContextSection, line)]
  {
    var t := TaggedLine(ContextSection, line);
    var d := LastDiff(p);
    TagAppend(ContextSection, d.context_tail.lines, line);
    InsertAtEnd(DiffDoc(d), t);
    UpdateLastDiffDoc(p, d.(context_tail := Chunk(d.context_tail.lines + [line])), 0, t);
    InsertAtEnd(Document(p), t);
  }

  /** Every action but `StartPatch` inserts the line, tagged with its
      section, into the document and changes nothing else; only a changed
      line joining a diff block that already has trailing context lands
      before the end. `StartPatch` leaves a document of that line alone. */
  lemma ApplyInsertsLine(p: Patch, action: Action, line: string)
    requires Fits(p, action)
    ensures action.StartPatch? ==> Document(Apply(p, action, line)) == [TaggedLine(PatchHeaderSection, line)]
    ensures !action.StartPatch? ==> Back(p, action) <= |Document(p)|
    ensures !action.StartPatch? ==>
      Document(Apply(p, action, line)) == InsertFromEnd(Document(p), Back(p, action), TaggedLine(SectionOf(action), line))
  {
    var t := TaggedLine(SectionOf(action), line);
    if action != AppendDiff {
      InsertAtEnd(Document(p), t);
    }
    match action
    case StartPatch(_) =>
      assert Tag(PatchHeaderSection, [line]) == [t] + Tag(PatchHeaderSection, []);
    case AppendPatchHeader => PatchHeaderDoc(p, line);
    case StartFile => FileDocAppended(p, line);
    case AppendFileHeader => FileHeaderDoc(p, line);
    case StartHunk => HunkDocAppended(p, line);
    case AppendContextHead => ContextHeadDoc(p, line);
    case StartDiff => DiffBlockDoc(p, line);
    case AppendDiff => DiffLineDoc(p, line);
    case AppendContextTail => ContextTailDoc(p, line);
  }

  // ---------------------------------------------------------------------
  // The shape invariant

  /** The first header line is the `commit ` line the patch was started by. */
  predicate Headed(strip: string -> string, p: Patch) {
    |p.patch_header.lines| > 0 && StartsWith(Key(strip, p.patch_header.lines[0]), "commit ")
  }

  predicate InBody(p: Patch) {
    HasDiff(p) && LastDiff(p).diff.lines != []
  }

  /** What each state guarantees about the patch under construction. */
  predicate Valid(strip: string -> string, state: State, p: Patch) {
    match state
    case Start => p == EmptyPatch
    case PatchHeader => Headed(strip, p) && p.files == []
    case FileHeader => Headed(strip, p) && HasFile(p) && LastFile(p).hunks == []
    case HunkHead => Headed(strip, p) && HasHunk(p) && LastHunk(p).diffs == []
    case HunkBodyDiff => Headed(strip, p) && InBody(p)
    case HunkBodyTail => Headed(strip, p) && InBody(p) && LastDiff(p).context_tail.lines != []
  }

  /** Every transition finds the shape its action needs and leaves the
      shape its next state promises, so none of the `expect`s fires. */
  lemma TransitionKeepsShape(strip: string -> string, state: State, p: Patch, line: string, move: Move)
    requires Valid(strip, state, p)
    requires Transition(state, Classify(Key(strip, line))) == Ok(move)
    ensures Fits(p, move.action)
    ensures Valid(strip, move.next, Apply(p, move.action, line))
  {
    var kind := Classify(Key(strip, line));
    if move.action == AppendPatchHeader {
      assert PushPatchHeader(p, line).patch_header.lines[0] == p.patch_header.lines[0];
    }
  }

  // ---------------------------------------------------------------------
  // One step and the whole run

  /** The loop's variables between two lines: the state, the patch under
      construction and everything written so far. */
  datatype LoopVars = LoopVars(state: State, patch: Patch, out: seq<string>)

  const Initial := LoopVars(Start, EmptyPatch, [])

  /** What the decoded line does to the loop's variables. */
  function Advance(config: Config, strip: string -> string, b: LoopVars, line: string): (r: Result<LoopVars, Fatal>)
    requires Valid(strip, b.state, b.patch)
    ensures r.Ok? ==> Valid(strip, r.value.state, r.value.patch)
    ensures r.Ok? ==> |b.out| <= |r.value.out| && r.value.out[..|b.out|] == b.out
  {
    var move :- Transition(b.state, Classify(Key(strip, line)));
    TransitionKeepsShape(strip, b.state, b.patch, line, move);
    var written :- if move.action == StartPatch(true) then ProcessPatch(config, strip, b.patch) else Ok([]);
    Ok(LoopVars(move.next, Apply(b.patch, move.action, line), b.out + written))
  }

  /** One iteration of the loop for the line numbered `lineNumber`. */
  function Step(config: Config, env: Env, b: LoopVars, raw: seq<byte>, lineNumber: nat): (r: Result<LoopVars, Fatal>)
    requires Valid(env.strip, b.state, b.patch)
    ensures r.Ok? ==> Valid(env.strip, r.value.state, r.value.patch)
    ensures r.Ok? ==> |b.out| <= |r.value.out| && r.value.out[..|b.out|] == b.out
  {
    var line :- Decode(config.decode_strategy, env, b.state, raw, lineNumber);
    Advance(config, env.strip, b, line)
  }

  /** The loop over the first `|raws|` lines. */
  function Run(config: Config, env: Env, raws: seq<seq<byte>>): (r: Result<LoopVars, Fatal>)
    ensures r.Ok? ==> Valid(env.strip, r.value.state, r.value.patch)
    decreases |raws|
  {
    if raws == [] then Ok(Initial)
    else
      var b :- Run(config, env, raws[..|raws| - 1]);
      Step(config, env, b, raws[|raws| - 1], |raws|)
  }

  /** The whole of `process_lines`: the loop, then one last
      `process_patch` on whatever patch is left. */
  function ProcessLinesSpec(config: Config, env: Env, raws: seq<seq<byte>>): Result<seq<string>, Fatal> {
    var b :- Run(config, env, raws);
    var written :- ProcessPatch(config, env.strip, b.patch);
    Ok(b.out + written)
  }

  /** What the loop has written to standard output once it has read
      `raws` or stopped among them: the output of the longest run of lines
      that did not abort. */
  function WrittenBefore(config: Config, env: Env, raws: seq<seq<byte>>): seq<string>
    decreases |raws|
  {
    match Run(config, env, raws)
    case Ok(b) => b.out
    case Err(_) => if raws == [] then [] else WrittenBefore(config, env, raws[..|raws| - 1])
  }

  /** Everything `process_lines` writes: on success the loop's output and
      the final flush; on an abort, whatever was written before it. */
  function Written(config: Config, env: Env, raws: seq<seq<byte>>): seq<string> {
    match ProcessLinesSpec(config, env, raws)
    case Ok(written) => written
    case Err(_) => WrittenBefore(config, env, raws)
  }

  // ---------------------------------------------------------------------
  // process_lines

  /** `process_lines` with the input given as its lines (each as read,
      terminator included) and the output returned as what was written. */
  method ProcessLines(config: Config, env: Env, input: seq<seq<byte>>)
      returns (written: seq<string>, r: Result<seq<string>, Fatal>)
    ensures r == ProcessLinesSpec(config, env, input)
    ensures written == Written(config, env, input)
  {
    var lineNum := 0;
    var state := Start;
    var patch := EmptyPatch;
    var out: seq<string> := [];

    while lineNum < |input|
      invariant 0 <= lineNum <= |input|
      invariant Run(config, env, input[..lineNum]) == Ok(LoopVars(state, patch, out))
    {
      var next := StepLine(config, env, input, lineNum, LoopVars(state, patch, out));
      if next.Err? {
        AbortStopsOutput(config, env, input, lineNum);
        return out, Err(next.error);
      }
      lineNum := lineNum + 1;
      state, patch, out := next.value.state, next.value.patch, next.value.out;
    }
    assert input[..lineNum] == input;
    FlushAtEnd(config, env, input, LoopVars(state, patch, out));
    written := out + ProcessPatch(config, env.strip, patch).value;
    r := Ok(written);
  }

  /** One pass of the loop body on line `k` (numbered `k + 1`): decode the
      line, then advance the state machine on it. It continues the run of
      the lines before it. */
  method StepLine(config: Config, env: Env, input: seq<seq<byte>>, k: nat, b: LoopVars)
      returns (r: Result<LoopVars, Fatal>)
    requires k < |input| && Run(config, env, input[..k]) == Ok(b)
    ensures r == Run(config, env, input[..k + 1])
  {
    RunSnoc(config, env, input, k);
    var line := DecodeLine(config.decode_strategy, env, b.state, input[k], k + 1);
    if line.Err? {
      return Err(line.error);
    }
    r := AdvanceLine(config, env.strip, b, line.value);
  }

  /** The `match` on the decoding strategy at the top of the loop. Under
      `Panic` an invalid line is the `expect` that aborts. It computes
      `Decode`; it is a method of its own so that the loop body's proof
      does not also carry the decoding cases. */
  method DecodeLine(strategy: Utf8Strategy, env: Env, state: State, raw: seq<byte>, lineNumber: nat)
      returns (r: Result<string, Fatal>)
    ensures r == Decode(strategy, env, state, raw, lineNumber)
  {
    match strategy {
      case Lossy =>
        r := Ok(env.lossy(raw));
      case Panic =>
        if env.valid(raw) {
          r := Ok(env.decode(raw));
        } else {
          r := Err(InvalidUtf8(lineNumber));
        }
      case SkipLine =>
        var defaultValue := match state { case HunkHead => "+" case _ => " " };
        r := Ok(if env.valid(raw) then env.decode(raw) else defaultValue);
    }
  }

  /** The colour-stripped line with its terminator popped: one "\n",
      then one "\r". */
  method TrimmedKey(strip: string -> string, line: string) returns (key: string)
    ensures key == Key(strip, line)
  {
    key := strip(line);
    if EndsWith(key, "\n") {
      key := key[..|key| - 1];
      if EndsWith(key, "\r") {
        key := key[..|key| - 1];
      }
    }
  }

  /** The body of the loop after decoding: the `match` on the state with
      its chains of key tests. */
  method AdvanceLine(config: Config, strip: string -> string, b: LoopVars, line: string) returns (r: Result<LoopVars, Fatal>)
    requires Valid(strip, b.state, b.patch)
    ensures r == Advance(config, strip, b, line)
  {
    var key := TrimmedKey(strip, line);
    if b.state == HunkBodyDiff {
      r := AdvanceInDiff(config, strip, b, line, key);
    } else if b.state == HunkBodyTail {
      r := AdvanceInTail(config, strip, b, line, key);
    } else {
      r := AdvanceInHeaders(config, strip, b, line, key);
    }
  }

  /** `Advance` on a line whose move stores it without a flush: the line
      is stored and nothing is written. */
  lemma AdvanceStores(config: Config, strip: string -> string, b: LoopVars, line: string, move: Move)
    requires Valid(strip, b.state, b.patch)
    requires Transition(b.state, Classify(Key(strip, line))) == Ok(move)
    requires move.action != StartPatch(true)
    ensures Fits(b.patch, move.action)
    ensures Advance(config, strip, b, line) == Ok(LoopVars(move.next, Apply(b.patch, move.action, line), b.out))
  {
    TransitionKeepsShape(strip, b.state, b.patch, line, move);
    assert b.out + [] == b.out;
  }

  /** The arms for `Start`, `PatchHeader`, `FileHeader` and `HunkHead`. */
  method AdvanceInHeaders(config: Config, strip: string -> string, b: LoopVars, line: string, key: string) returns (r: Result<LoopVars, Fatal>)
    requires Valid(strip, b.state, b.patch) && key == Key(strip, line)
    requires !b.state.HunkBodyDiff? && !b.state.HunkBodyTail?
    ensures r == Advance(config, strip, b, line)
  {
    var patch := b.patch;
    match b.state {
      case Start =>
        if StartsWith(key, "commit ") {
          AdvanceStores(config, strip, b, line, Move(PatchHeader, StartPatch(false)));
          r := Ok(LoopVars(PatchHeader, NewPatch(line), b.out));
        } else {
          r := Err(ExpectedCommit);
        }
      case PatchHeader =>
        if StartsWith(key, "diff --git") {
          AdvanceStores(config, strip, b, line, Move(FileHeader, StartFile));
          r := Ok(LoopVars(FileHeader, PushFile(patch, line), b.out));
        } else {
          AdvanceStores(config, strip, b, line, Move(PatchHeader, AppendPatchHeader));
          r := Ok(LoopVars(PatchHeader, PushPatchHeader(patch, line), b.out));
        }
      case FileHeader =>
        if StartsWith(key, "@@") {
          AdvanceStores(config, strip, b, line, Move(HunkHead, StartHunk));
          r := Ok(LoopVars(HunkHead, PushHunk(patch, line), b.out));
        } else {
          AdvanceStores(config, strip, b, line, Move(FileHeader, AppendFileHeader));
          r := Ok(LoopVars(FileHeader, PushFileHeader(patch, line), b.out));
        }
      case HunkHead =>
        if StartsWith(key, " ") {
          AdvanceStores(config, strip, b, line, Move(HunkHead, AppendContextHead));
          r := Ok(LoopVars(HunkHead, PushContextHead(patch, line), b.out));
        } else if StartsWith(key, "+") || StartsWith(key, "-") {
          AdvanceStores(config, strip, b, line, Move(HunkBodyDiff, StartDiff));
          r := Ok(LoopVars(HunkBodyDiff, PushDiffBlock(patch, line), b.out));
        } else {
          r := Err(UnknownInHunkHead);
        }
    }
  }

  /** The arm for `HunkBodyDiff`. */
  method AdvanceInDiff(config: Config, strip: string -> string, b: LoopVars, line: string, key: string) returns (r: Result<LoopVars, Fatal>)
    requires Valid(strip, b.state, b.patch) && key == Key(strip, line)
    requires b.state == HunkBodyDiff
    ensures r == Advance(config, strip, b, line)
  {
    var patch := b.patch;
    if StartsWith(key, "+") || StartsWith(key, "-") {
      AdvanceStores(config, strip, b, line, Move(HunkBodyDiff, AppendDiff));
      r := Ok(LoopVars(HunkBodyDiff, PushDiffLine(patch, line), b.out));
    } else if StartsWith(key, " ") || key == "" || key == NoNewlineMarker {
      AdvanceStores(config, strip, b, line, Move(HunkBodyTail, AppendContextTail));
      r := Ok(LoopVars(HunkBodyTail, PushContextTail(patch, line), b.out));
    } else if StartsWith(key, "diff --git") {
      AdvanceStores(config, strip, b, line, Move(FileHeader, StartFile));
      r := Ok(LoopVars(FileHeader, PushFile(patch, line), b.out));
    } else if StartsWith(key, "commit ") {
      AdvanceStores(config, strip, b, line, Move(PatchHeader, StartPatch(false)));
      r := Ok(LoopVars(PatchHeader, NewPatch(line), b.out));
    } else {
      r := Err(UnknownInHunkBody);
    }
  }

  /** The arm for `HunkBodyTail`, the only one that flushes. */
  method AdvanceInTail(config: Config, strip: string -> string, b: LoopVars, line: string, key: string) returns (r: Result<LoopVars, Fatal>)
    requires Valid(strip, b.state, b.patch) && key == Key(strip, line)
    requires b.state == HunkBodyTail
    ensures r == Advance(config, strip, b, line)
  {
    var patch := b.patch;
    if StartsWith(key, " ") || key == "" || key == NoNewlineMarker {
      AdvanceStores(config, strip, b, line, Move(HunkBodyTail, AppendContextTail));
      r := Ok(LoopVars(HunkBodyTail, PushContextTail(patch, line), b.out));
    } else if StartsWith(key, "+") || StartsWith(key, "-") {
      AdvanceStores(config, strip, b, line, Move(HunkBodyDiff, AppendDiff));
      r := Ok(LoopVars(HunkBodyDiff, PushDiffLine(patch, line), b.out));
    } else if StartsWith(key, "@@") {
      AdvanceStores(config, strip, b, line, Move(HunkHead, StartHunk));
      r := Ok(LoopVars(HunkHead, PushHunk(patch, line), b.out));
    } else if StartsWith(key, "diff --git") {
      AdvanceStores(config, strip, b, line, Move(FileHeader, StartFile));
      r := Ok(LoopVars(FileHeader, PushFile(patch, line), b.out));
    } else if StartsWith(key, "commit ") {
      FlushNeverFails(config, strip, b.state, patch);
      var written := ProcessPatch(config, strip, patch).value;
      r := Ok(LoopVars(PatchHeader, NewPatch(line), b.out + written));
    } else {
      r := Err(UnknownInHunkTail);
    }
  }

  // ---------------------------------------------------------------------
  // Lemmas about the run

  lemma RunSnoc(config: Config, env: Env, input: seq<seq<byte>>, k: nat)
    requires k < |input| && Run(config, env, input[..k]).Ok?
    ensures Run(config, env, input[..k + 1]) == Step(config, env, Run(config, env, input[..k]).value, input[k], k + 1)
  {
    assert input[..k + 1][..k] == input[..k];
  }

  /** Once every line is read without an abort, the final `process_patch`
      succeeds and its output follows the loop's. */
  lemma FlushAtEnd(config: Config, env: Env, input: seq<seq<byte>>, b: LoopVars)
    requires Run(config, env, input) == Ok(b)
    ensures ProcessPatch(config, env.strip, b.patch).Ok?
    ensures ProcessLinesSpec(config, env, input) == Ok(b.out + ProcessPatch(config, env.strip, b.patch).value)
    ensures Written(config, env, input) == b.out + ProcessPatch(config, env.strip, b.patch).value
  {
    FlushNeverFails(config, env.strip, b.state, b.patch);
  }

  /** After a fatal line the next line is not read. */
  lemma RunErrStep(config: Config, env: Env, input: seq<seq<byte>>, k: nat)
    requires k < |input| && Run(config, env, input[..k]).Err?
    ensures Run(config, env, input[..k + 1]) == Run(config, env, input[..k])
  {
    assert input[..k + 1][..k] == input[..k];
  }

  /** A fatal line ends the run: nothing after it is read. */
  lemma {:induction false} RunErrPersists(config: Config, env: Env, input: seq<seq<byte>>, k: nat)
    requires k <= |input| && Run(config, env, input[..k]).Err?
    ensures Run(config, env, input) == Run(config, env, input[..k])
    decreases |input| - k
  {
    if k == |input| {
      assert input[..k] == input;
    } else {
      RunErrStep(config, env, input, k);
      RunErrPersists(config, env, input, k + 1);
    }
  }

  /** Once a line has aborted the run, what has been written is fixed:
      no later line adds to it. */
  lemma {:induction false} WrittenBeforeAbort(config: Config, env: Env, input: seq<seq<byte>>, k: nat)
    requires k <= |input| && Run(config, env, input[..k]).Err?
    ensures WrittenBefore(config, env, input) == WrittenBefore(config, env, input[..k])
    decreases |input| - k
  {
    if k == |input| {
      assert input[..k] == input;
    } else {
      var init := input[..|input| - 1];
      assert init[..k] == input[..k];
      WrittenBeforeAbort(config, env, init, k);
      RunErrPersists(config, env, input, k);
      assert WrittenBefore(config, env, input) == WrittenBefore(config, env, init);
    }
  }

  /** A fatal line ends the output: `process_lines` has written exactly
      what the lines before it wrote, flushes included, and reports that
      line's error. */
  lemma AbortStopsOutput(config: Config, env: Env, input: seq<seq<byte>>, k: nat)
    requires k < |input| && Run(config, env, input[..k]).Ok? && Run(config, env, input[..k + 1]).Err?
    ensures ProcessLinesSpec(config, env, input).Err?
    ensures ProcessLinesSpec(config, env, input).error == Run(config, env, input[..k + 1]).error
    ensures Written(config, env, input) == Run(config, env, input[..k]).value.out
  {
    RunErrPersists(config, env, input, k + 1);
    WrittenBeforeAbort(config, env, input, k + 1);
    assert input[..k + 1][..k] == input[..k];
  }

  /** `AbortStopsOutput` stated from the variables the lines read so far
      left: a step from them that aborts ends `process_lines`. */
  lemma AbortAtStep(config: Config, env: Env, input: seq<seq<byte>>, k: nat, b: LoopVars)
    requires k < |input| && Run(config, env, input[..k]) == Ok(b)
    requires Step(config, env, b, input[k], k + 1).Err?
    ensures ProcessLinesSpec(config, env, input) == Err(Step(config, env, b, input[k], k + 1).error)
    ensures Written(config, env, input) == b.out
  {
    RunSnoc(config, env, input, k);
    AbortStopsOutput(config, env, input, k);
  }

  /** Output is only ever appended: what the first `k` lines wrote is a
      prefix of what all the lines write, whether or not a later line
      aborts. */
  lemma {:induction false} OutputOnlyGrows(config: Config, env: Env, input: seq<seq<byte>>, k: nat)
    requires k <= |input|
    ensures var before := WrittenBefore(config, env, input[..k]);
      var after := WrittenBefore(config, env, input);
      |before| <= |after| && after[..|before|] == before
    decreases |input|
  {
    if k < |input| {
      var init := input[..|input| - 1];
      assert init[..k] == input[..k];
      OutputOnlyGrows(config, env, init, k);
      var run := Run(config, env, input);
      if run.Ok? {
        assert Run(config, env, init).Ok?;
      }
    } else {
      assert input[..k] == input;
    }
  }

  /** Every line written before the end of the input stays in the output
      of `process_lines`, even when a later line aborts. */
  lemma EarlierOutputKept(config: Config, env: Env, input: seq<seq<byte>>, k: nat)
    requires k <= |input| && Run(config, env, input[..k]).Ok?
    ensures var before := Run(config, env, input[..k]).value.out;
      var all := Written(config, env, input);
      |before| <= |all| && all[..|before|] == before
  {
    OutputOnlyGrows(config, env, input, k);
    FatalOnlyFromLines(config, env, input);
  }

  lemma StartsWithTrans(s: string, t: string, prefix: string)
    requires StartsWith(s, t) && StartsWith(t, prefix)
    ensures StartsWith(s, prefix)
  {
    assert s[..|prefix|] == s[..|t|][..|prefix|];
  }

  /** The `expect` in the commit-hash output never fires on a patch the
      state machine built: its first line is the `commit ` line. */
  lemma FlushNeverFails(config: Config, strip: string -> string, state: State, p: Patch)
    requires Valid(strip, state, p)
    ensures ProcessPatch(config, strip, p).Ok?
  {
    if state != Start {
      var first := p.patch_header.lines[0];
      StartsWithTrans(strip(first), Key(strip, first), "commit ");
    }
  }

  /** Every fatal condition comes from a line; the final flush never fails. */
  lemma FatalOnlyFromLines(config: Config, env: Env, raws: seq<seq<byte>>)
    ensures ProcessLinesSpec(config, env, raws).Err? <==> Run(config, env, raws).Err?
    ensures Run(config, env, raws).Err? ==> ProcessLinesSpec(config, env, raws).error == Run(config, env, raws).error
  {
    var run := Run(config, env, raws);
    if run.Ok? {
      FlushNeverFails(config, env.strip, run.value.state, run.value.patch);
    }
  }

  /** On empty input the final flush sees the initial empty patch and
      nothing is written. */
  lemma EmptyInputWritesNothing(config: Config, env: Env)
    ensures ProcessLinesSpec(config, env, []) == Ok([])
  {
    assert Run(config, env, []) == Ok(Initial);
    NothingMatchesEmptyPatch(config, env.strip);
    assert Initial.patch == EmptyPatch && Initial.out == [];
    assert Initial.out + [] == [];
  }

  lemma NothingMatchesEmptyPatch(config: Config, strip: string -> string)
    ensures ProcessPatch(config, strip, EmptyPatch) == Ok([])
  {
    assert !LinesMatch([], config.search_string);
    assert !FilesMatch(config.match_on, [], config.search_string);
  }

  /** Each step stores the decoded line itself, terminator and escape
      codes included, in exactly one place: a `commit ` line that starts a
      patch is the new patch's whole document; any other line is inserted
      into the document, tagged with its section, and nothing else
      changes. */
  lemma StepStoresLine(config: Config, env: Env, b: LoopVars, raw: seq<byte>, lineNumber: nat)
    requires Valid(env.strip, b.state, b.patch)
    requires Step(config, env, b, raw, lineNumber).Ok?
    ensures Decode(config.decode_strategy, env, b.state, raw, lineNumber).Ok?
    ensures Transition(b.state, Classify(Key(env.strip, Decode(config.decode_strategy, env, b.state, raw, lineNumber).value))).Ok?
    ensures
      var line := Decode(config.decode_strategy, env, b.state, raw, lineNumber).value;
      var move := Transition(b.state, Classify(Key(env.strip, line))).value;
      var next := Step(config, env, b, raw, lineNumber).value;
      && next.state == move.next
      && (move.action.StartPatch? ==> Document(next.patch) == [TaggedLine(PatchHeaderSection, line)])
      && (!move.action.StartPatch? ==> Back(b.patch, move.action) <= |Document(b.patch)|)
      && (!move.action.StartPatch? ==>
            Document(next.patch) == InsertFromEnd(Document(b.patch), Back(b.patch, move.action), TaggedLine(SectionOf(move.action), line)))
  {
    var line := Decode(config.decode_strategy, env, b.state, raw, lineNumber).value;
    var move := Transition(b.state, Classify(Key(env.strip, line))).value;
    ApplyInsertsLine(b.patch, move.action, line);
  }

  /** Output is written only when a `commit ` line ends a patch in
      `HunkBodyTail`; then the old patch is processed before the new one
      starts. */
  lemma CommitInTailFlushes(config: Config, env: Env, b: LoopVars, raw: seq<byte>, lineNumber: nat, line: string)
    requires b.state == HunkBodyTail && Valid(env.strip, b.state, b.patch)
    requires Decode(config.decode_strategy, env, b.state, raw, lineNumber) == Ok(line)
    requires StartsWith(Key(env.strip, line), "commit ")
    ensures ProcessPatch(config, env.strip, b.patch).Ok?
    ensures Step(config, env, b, raw, lineNumber)
      == Ok(LoopVars(PatchHeader, NewPatch(line), b.out + ProcessPatch(config, env.strip, b.patch).value))
  {
    FlushNeverFails(config, env.strip, b.state, b.patch);
  }

  /** A `commit ` line in `HunkBodyDiff` replaces the patch without
      processing it: nothing is written for the dropped patch. */
  lemma CommitInDiffDiscards(config: Config, env: Env, b: LoopVars, raw: seq<byte>, lineNumber: nat, line: string)
    requires b.state == HunkBodyDiff && Valid(env.strip, b.state, b.patch)
    requires Decode(config.decode_strategy, env, b.state, raw, lineNumber) == Ok(line)
    requires StartsWith(Key(env.strip, line), "commit ")
    ensures Step(config, env, b, raw, lineNumber) == Ok(LoopVars(PatchHeader, NewPatch(line), b.out))
  {
    assert b.out + [] == b.out;
  }

  /** Apart from that flush, a step writes nothing. */
  lemma OnlyTailCommitWrites(config: Config, env: Env, b: LoopVars, raw: seq<byte>, lineNumber: nat)
    requires Valid(env.strip, b.state, b.patch)
    requires Step(config, env, b, raw, lineNumber).Ok?
    ensures Step(config, env, b, raw, lineNumber).value.out != b.out ==>
      b.state == HunkBodyTail && Step(config, env, b, raw, lineNumber).value.state == PatchHeader
  {
    var line := Decode(config.decode_strategy, env, b.state, raw, lineNumber).value;
    var move := Transition(b.state, Classify(Key(env.strip, line))).value;
    if move.action != StartPatch(true) {
      AdvanceStores(config, env.strip, b, line, move);
    }
  }

  /** Under `SkipLine` an invalid first line becomes " ", which is not a
      `commit ` line, so the run still fails (provided stripping leaves
      " " alone). */
  lemma SkipLineAtStartIsFatal(config: Config, env: Env, raw: seq<byte>)
    requires config.decode_strategy == SkipLine && !env.valid(raw)
    requires env.strip(" ") == " "
    ensures Step(config, env, Initial, raw, 1) == Err(ExpectedCommit)
  {
    assert Key(env.strip, " ") == " ";
  }

  /** Under `SkipLine` an invalid line in `HunkHead` becomes "+", which
      opens the first diff block. */
  lemma SkipLineInHunkHeadOpensDiff(config: Config, env: Env, b: LoopVars, raw: seq<byte>, lineNumber: nat)
    requires b.state == HunkHead && Valid(env.strip, b.state, b.patch)
    requires config.decode_strategy == SkipLine && !env.valid(raw)
    requires env.strip("+") == "+"
    ensures Step(config, env, b, raw, lineNumber) == Ok(LoopVars(HunkBodyDiff, PushDiffBlock(b.patch, "+"), b.out))
  {
    assert Key(env.strip, "+") == "+";
    AdvanceStores(config, env.strip, b, "+", Move(HunkBodyDiff, StartDiff));
  }

  /** In `PatchHeader` every line but `diff --git` stays in the header,
      a further `commit ` line included. */
  lemma PatchHeaderKeepsLines(config: Config, env: Env, b: LoopVars, raw: seq<byte>, lineNumber: nat, line: string)
    requires b.state == PatchHeader && Valid(env.strip, b.state, b.patch)
    requires Decode(config.decode_strategy, env, b.state, raw, lineNumber) == Ok(line)
    requires !StartsWith(Key(env.strip, line), "diff --git")
    ensures Step(config, env, b, raw, lineNumber) == Ok(LoopVars(PatchHeader, PushPatchHeader(b.patch, line), b.out))
  {
    assert b.out + [] == b.out;
  }

  /** An empty key (a blank line) is fatal in `HunkHead`, and a hunk
      header `@@` is fatal in `HunkBodyDiff`. */
  lemma HunkHeadAndBodyRejections(config: Config, env: Env, b: LoopVars, raw: seq<byte>, lineNumber: nat, line: string)
    requires Valid(env.strip, b.state, b.patch)
    requires Decode(config.decode_strategy, env, b.state, raw, lineNumber) == Ok(line)
    ensures b.state == HunkHead && Key(env.strip, line) == "" ==>
      Step(config, env, b, raw, lineNumber) == Err(UnknownInHunkHead)
    ensures b.state == HunkBodyDiff && StartsWith(Key(env.strip, line), "@@") ==>
      Step(config, env, b, raw, lineNumber) == Err(UnknownInHunkBody)
  {
  }

  /** In `HunkBodyTail` a changed line goes back into the same diff block,
      ahead of the context already collected after it. */
  lemma ChangeAfterTailJoinsSameBlock(config: Config, env: Env, b: LoopVars, raw: seq<byte>, lineNumber: nat, line: string)
    requires b.state == HunkBodyTail && Valid(env.strip, b.state, b.patch)
    requires Decode(config.decode_strategy, env, b.state, raw, lineNumber) == Ok(line)
    requires StartsWith(Key(env.strip, line), "+") || StartsWith(Key(env.strip, line), "-")
    ensures Step(config, env, b, raw, lineNumber).Ok?
    ensures var next := Step(config, env, b, raw, lineNumber).value;
      && next.state == HunkBodyDiff
      && |next.patch.files| == |b.patch.files|
      && HasDiff(next.patch)
      && |LastHunk(next.patch).diffs| == |LastHunk(b.patch).diffs|
      && LastDiff(next.patch).diff.lines == LastDiff(b.patch).diff.lines + [line]
      && LastDiff(next.patch).context_tail == LastDiff(b.patch).context_tail
  {
    AdvanceStores(config, env.strip, b, line, Move(HunkBodyDiff, AppendDiff));
  }
}
