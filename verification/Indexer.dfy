/**
 Incremental indexing: `index_file` skips a file whose hash it already has, and otherwise replaces
 the file's rows in one transaction. Deleting the file row cascades to its symbols and their refs,
 and triggers keep the full-text table in step.
 */
module Indexer {
  import opened Wrappers
  import opened Schema
  import opened Seqs

  datatype Call = Call(callee: string, line: int)

  /** Language detection, hashing and tree-sitter extraction, as functions of their inputs. */
  datatype Tools = Tools(
    detect: string -> Option<string>,
    hash: Bytes -> string,
    symbols: (string, Bytes) -> Option<seq<SymbolInfo>>,
    calls: (string, Bytes) -> Option<seq<Call>>)

  // ---------- what a file's rows say, row ids aside ----------

  /** A ref, with its symbol given by its place among the symbols of the file. */
  datatype RefInfo = RefInfo(from: nat, toName: string, line: int)

  datatype FileView = FileView(lang: string, contentHash: string, symbols: seq<SymbolInfo>, refs: seq<RefInfo>)

  function FindFile(files: seq<FileRow>, path: string): (r: Option<FileRow>)
    ensures r.Some? ==> r.value in files && r.value.path == path
    ensures r.None? ==> forall i :: 0 <= i < |files| ==> files[i].path != path
  {
    if files == [] then None
    else if files[|files| - 1].path == path then Some(files[|files| - 1])
    else FindFile(files[..|files| - 1], path)
  }

  function InFile(fileId: int): SymbolRow -> bool { (s: SymbolRow) => s.fileId == fileId }

  function NotInFile(fileId: int): SymbolRow -> bool { (s: SymbolRow) => s.fileId != fileId }

  function SymbolsOf(symbols: seq<SymbolRow>, fileId: int): seq<SymbolRow> {
    Filter(symbols, InFile(fileId))
  }

  function Infos(rows: seq<SymbolRow>): (r: seq<SymbolInfo>)
    ensures |r| == |rows| && forall i :: 0 <= i < |rows| ==> r[i] == rows[i].info
  {
    seq(|rows|, i requires 0 <= i < |rows| => rows[i].info)
  }

  function PlaceOf(rows: seq<SymbolRow>, id: int): (r: Option<nat>)
    ensures r.Some? ==> r.value < |rows| && rows[r.value].id == id
    ensures r.None? ==> forall i :: 0 <= i < |rows| ==> rows[i].id != id
  {
    if rows == [] then None
    else if PlaceOf(rows[..|rows| - 1], id).Some? then PlaceOf(rows[..|rows| - 1], id)
    else if rows[|rows| - 1].id == id then Some(|rows| - 1) else None
  }

  function RefsOf(refs: seq<RefRow>, rows: seq<SymbolRow>): seq<RefInfo> {
    if refs == [] then []
    else
      var last := refs[|refs| - 1];
      var earlier := RefsOf(refs[..|refs| - 1], rows);
      match PlaceOf(rows, last.fromSymbolId) case Some(k) => earlier + [RefInfo(k, last.toName, last.line)] case None => earlier
  }

  function ViewOfFile(t: Tables, f: FileRow): FileView {
    var rows := SymbolsOf(t.symbols, f.id);
    FileView(f.lang, f.contentHash, Infos(rows), RefsOf(t.refs, rows))
  }

  function View(t: Tables, path: string): Option<FileView> {
    match FindFile(t.files, path)
    case Some(f) => Some(ViewOfFile(t, f))
    case None => None
  }

  ghost predicate OthersSame(before: Tables, after: Tables, path: string) {
    forall q :: q != path ==> View(after, q) == View(before, q)
  }

  // ---------- a build from scratch ----------

  predicate Encloses(s: SymbolInfo, line: int) {
    s.lineStart <= line <= s.lineEnd
  }

  function Width(s: SymbolInfo): int { s.lineEnd - s.lineStart }

  /** The symbol a call at `line` belongs to: the first of the narrowest that enclose it. */
  function Innermost(symbols: seq<SymbolInfo>, line: int): (r: Option<nat>)
    ensures r.Some? ==> r.value < |symbols|
  {
    if symbols == [] then None
    else
      var n := |symbols| - 1;
      var best := Innermost(symbols[..n], line);
      if Encloses(symbols[n], line) && (best.None? || Width(symbols[n]) < Width(symbols[best.value])) then Some(n) else best
  }

  function Resolve(symbols: seq<SymbolInfo>, calls: seq<Call>): seq<RefInfo> {
    if calls == [] then []
    else
      var last := calls[|calls| - 1];
      var earlier := Resolve(symbols, calls[..|calls| - 1]);
      match Innermost(symbols, last.line) case Some(k) => earlier + [RefInfo(k, last.callee, last.line)] case None => earlier
  }

  predicate Extracts(tools: Tools, path: string, bytes: Bytes) {
    && tools.detect(path).Some?
    && tools.symbols(tools.detect(path).value, bytes).Some?
    && tools.calls(tools.detect(path).value, bytes).Some?
  }

  /** The rows a file's contents call for, computed with no reference to any earlier state. */
  function Build(tools: Tools, path: string, bytes: Bytes): FileView
    requires Extracts(tools, path, bytes)
  {
    var lang := tools.detect(path).value;
    var symbols := tools.symbols(lang, bytes).value;
    FileView(lang, tools.hash(bytes), symbols, Resolve(symbols, tools.calls(lang, bytes).value))
  }

  /** `Innermost` encloses the line, nothing enclosing is narrower, and it is the first such symbol. */
  lemma {:induction false} InnermostIsNarrowest(symbols: seq<SymbolInfo>, line: int)
    ensures var r := Innermost(symbols, line);
            && (r.None? <==> forall i :: 0 <= i < |symbols| ==> !(symbols[i].lineStart <= line <= symbols[i].lineEnd))
            && (r.Some? ==>
                  && symbols[r.value].lineStart <= line <= symbols[r.value].lineEnd
                  && (forall i :: 0 <= i < |symbols| && symbols[i].lineStart <= line <= symbols[i].lineEnd ==>
                                    symbols[r.value].lineEnd - symbols[r.value].lineStart <= symbols[i].lineEnd - symbols[i].lineStart)
                  && (forall i :: 0 <= i < r.value && symbols[i].lineStart <= line <= symbols[i].lineEnd ==>
                                    symbols[r.value].lineEnd - symbols[r.value].lineStart < symbols[i].lineEnd - symbols[i].lineStart))
  {
    if symbols != [] {
      var n := |symbols| - 1;
      InnermostIsNarrowest(symbols[..n], line);
      assert forall i :: 0 <= i < n ==> symbols[..n][i] == symbols[i];
    }
  }

  /** Calls inside some symbol, in order: the ones that get a ref. */
  function Enclosed(symbols: seq<SymbolInfo>, calls: seq<Call>): seq<Call> {
    if calls == [] then []
    else
      var last := calls[|calls| - 1];
      var earlier := Enclosed(symbols, calls[..|calls| - 1]);
      if Innermost(symbols, last.line).Some? then earlier + [last] else earlier
  }

  /** One ref per enclosed call, in call order, each from a narrowest symbol around its line. */
  lemma {:induction false} RefsPointToNarrowest(symbols: seq<SymbolInfo>, calls: seq<Call>)
    ensures var refs, inside := Resolve(symbols, calls), Enclosed(symbols, calls);
            && |refs| == |inside|
            && forall j :: 0 <= j < |refs| ==>
                             && refs[j].toName == inside[j].callee && refs[j].line == inside[j].line
                             && refs[j].from < |symbols| && Encloses(symbols[refs[j].from], refs[j].line)
                             && forall i :: 0 <= i < |symbols| && Encloses(symbols[i], refs[j].line) ==>
                                              Width(symbols[refs[j].from]) <= Width(symbols[i])
  {
    if calls != [] {
      RefsPointToNarrowest(symbols, calls[..|calls| - 1]);
      InnermostIsNarrowest(symbols, calls[|calls| - 1].line);
    }
  }

  // ---------- the SQL statements, as functions of the tables ----------

  function NotPath(path: string): FileRow -> bool { (f: FileRow) => f.path != path }

  function NotFrom(gone: seq<SymbolRow>): RefRow -> bool { (r: RefRow) => PlaceOf(gone, r.fromSymbolId).None? }

  /** `DELETE FROM files WHERE path = ?1`, its cascades, and the delete trigger of every symbol removed. */
  function DeletePath(t: Tables, path: string): Tables {
    match FindFile(t.files, path)
    case None => t
    case Some(f) =>
      var gone := SymbolsOf(t.symbols, f.id);
      Tables(Filter(t.files, NotPath(path)), Filter(t.symbols, NotInFile(f.id)), Filter(t.refs, NotFrom(gone)),
             t.fts - Projection(gone))
  }

  /** The rowid SQLite gives the next row: one past the largest in use. Deleted ids are reused. */
  function NextFileId(files: seq<FileRow>): int {
    if files == [] then 1 else files[|files| - 1].id + 1
  }

  function NextSymbolId(symbols: seq<SymbolRow>): int {
    if symbols == [] then 1 else symbols[|symbols| - 1].id + 1
  }

  function NextRefId(refs: seq<RefRow>): int {
    if refs == [] then 1 else refs[|refs| - 1].id + 1
  }

  function WithFile(t: Tables, f: FileRow): Tables {
    t.(files := t.files + [f])
  }

  /** An inserted symbol row and the entry its insert trigger adds. */
  function WithSymbol(t: Tables, s: SymbolRow): Tables {
    t.(symbols := t.symbols + [s], fts := t.fts + multiset{FtsOf(s)})
  }

  function WithRef(t: Tables, r: RefRow): Tables {
    t.(refs := t.refs + [r])
  }
}
