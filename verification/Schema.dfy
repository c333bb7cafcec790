/**
 The tables of the code index and the constraints SQLite enforces on them.

 A table is the sequence of its rows in ascending rowid order. `symbols.parent_id` and
 `symbols.docstring` are always NULL and `refs.kind` is always 'call', so they are not stored.
 The full-text shadow table is the multiset of entries that its triggers added and did not remove.
 */
module Schema {
  import opened Seqs

  datatype FileRow = FileRow(id: int, path: string, lang: string, contentHash: string, mtimeNs: int, indexedAt: int)

  datatype SymbolInfo = SymbolInfo(kind: string, name: string, signature: string, lineStart: int, lineEnd: int)

  datatype SymbolRow = SymbolRow(id: int, fileId: int, info: SymbolInfo)

  datatype RefRow = RefRow(id: int, fromSymbolId: int, toName: string, line: int)

  datatype FtsRow = FtsRow(rowid: int, name: string, signature: string)

  datatype Tables = Tables(
    files: seq<FileRow>,
    symbols: seq<SymbolRow>,
    refs: seq<RefRow>,
    fts: multiset<FtsRow>)

  function FtsOf(s: SymbolRow): FtsRow {
    FtsRow(s.id, s.info.name, s.info.signature)
  }

  /** The projection of `symbols` that the shadow table is meant to hold. */
  function Projection(symbols: seq<SymbolRow>): multiset<FtsRow> {
    if symbols == [] then multiset{}
    else Projection(symbols[..|symbols| - 1]) + multiset{FtsOf(symbols[|symbols| - 1])}
  }

  function FileKey(): FileRow -> int { (f: FileRow) => f.id }

  function SymbolKey(): SymbolRow -> int { (s: SymbolRow) => s.id }

  function RefKey(): RefRow -> int { (r: RefRow) => r.id }

  /** Primary keys: rowids ascend, so they are distinct. */
  ghost predicate KeysAscend(t: Tables) {
    Ascends(t.files, FileKey()) && Ascends(t.symbols, SymbolKey()) && Ascends(t.refs, RefKey())
  }

  /** `files.path` is UNIQUE. */
  ghost predicate PathsUnique(files: seq<FileRow>) {
    forall i, j :: 0 <= i < j < |files| ==> files[i].path != files[j].path
  }

  ghost predicate HasFile(files: seq<FileRow>, id: int) {
    exists i :: 0 <= i < |files| && files[i].id == id
  }

  ghost predicate HasSymbol(symbols: seq<SymbolRow>, id: int) {
    exists i :: 0 <= i < |symbols| && symbols[i].id == id
  }

  /** No symbol points at a missing file and no ref at a missing symbol. */
  ghost predicate NothingDangles(t: Tables) {
    && (forall i :: 0 <= i < |t.symbols| ==> HasFile(t.files, t.symbols[i].fileId))
    && (forall i :: 0 <= i < |t.refs| ==> HasSymbol(t.symbols, t.refs[i].fromSymbolId))
  }

  ghost predicate Consistent(t: Tables) {
    && KeysAscend(t)
    && PathsUnique(t.files)
    && NothingDangles(t)
    && t.fts == Projection(t.symbols)
  }
}
