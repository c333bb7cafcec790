/**
 `IndexDb::index_file` over the tables, and what any history of calls leaves behind: for every path,
 the rows a build from scratch of its last indexed contents would give, unless hashes collided.
 */
module IndexDb {
  import opened Wrappers
  import opened Schema
  import opened Seqs
  import opened Indexer
  import opened IndexerSteps

  datatype IndexStats = IndexStats(symbols: nat, skippedUnchanged: bool)

  datatype IndexError = ReadFailed | ParseFailed

  /** A call of `index_file`: the path, what reading it gives, and the two clock readings. */
  datatype Request = Request(path: string, bytes: Option<Bytes>, mtimeNs: int, now: int)

  /** The hash the index already has for this path is the hash of these bytes. */
  predicate Fresh(tools: Tools, t: Tables, path: string, bytes: Bytes) {
    View(t, path).Some? && View(t, path).value.contentHash == tools.hash(bytes)
  }

  /** The file's row carries the two clock readings, and no other file's row changed at all. */
  ghost predicate StampedOnly(before: Tables, after: Tables, req: Request) {
    && FindFile(after.files, req.path).Some?
    && FindFile(after.files, req.path).value.mtimeNs == req.mtimeNs
    && FindFile(after.files, req.path).value.indexedAt == req.now
    && forall q :: q != req.path ==> FindFile(after.files, q) == FindFile(before.files, q)
  }

  lemma {:induction false} ReplacedRowIsStamped(before: Tables, after: Tables, req: Request, f: FileRow)
    requires f.path == req.path && f.mtimeNs == req.mtimeNs && f.indexedAt == req.now
    requires after.files == DeletePath(before, req.path).files + [f]
    ensures StampedOnly(before, after, req)
  {
    FindAfterInsert(DeletePath(before, req.path).files, f, req.path);
    forall q | q != req.path ensures FindFile(after.files, q) == FindFile(before.files, q) {
      FindAfterInsert(DeletePath(before, req.path).files, f, q);
      FindAfterDelete(before.files, req.path, q);
    }
  }

  /** What one call promises about the tables before and after it. */
  ghost predicate Outcome(tools: Tools, before: Tables, req: Request, after: Tables, r: Result<IndexStats, IndexError>) {
    if tools.detect(req.path).None? then after == before && r == Ok(IndexStats(0, false))
    else if req.bytes.None? then after == before && r == Err(ReadFailed)
    else if Fresh(tools, before, req.path, req.bytes.value) then after == before && r == Ok(IndexStats(0, true))
    else if !Extracts(tools, req.path, req.bytes.value) then after == before && r == Err(ParseFailed)
    else
      && Consistent(after)
      && OthersSame(before, after, req.path)
      && View(after, req.path) == Some(Build(tools, req.path, req.bytes.value))
      && StampedOnly(before, after, req)
      && r == Ok(IndexStats(|Build(tools, req.path, req.bytes.value).symbols|, false))
  }

  lemma {:induction false} MinusTwice<T>(a: multiset<T>, b: multiset<T>, c: multiset<T>)
    ensures a - b - c == a - (b + c)
  {
  }

  /** Part way through inserting the symbols of a file into `before`. */
  ghost predicate Filling(before: Tables, t: Tables, path: string, f: FileRow, symbols: seq<SymbolInfo>) {
    && Consistent(t) && FindFile(t.files, path) == Some(f)
    && View(t, path) == Some(FileView(f.lang, f.contentHash, symbols, []))
    && OthersSame(before, t, path) && t.files == before.files
  }

  lemma {:induction false} FoundIsThere(files: seq<FileRow>, path: string)
    requires FindFile(files, path).Some?
    ensures HasFile(files, FindFile(files, path).value.id)
  {
    var i :| 0 <= i < |files| && files[i] == FindFile(files, path).value;
  }

  lemma {:induction false} SymbolGoesIn(before: Tables, t: Tables, path: string, f: FileRow, done: seq<SymbolInfo>, info: SymbolInfo)
    requires Filling(before, t, path, f, done)
    ensures Filling(before, WithSymbol(t, SymbolRow(NextSymbolId(t.symbols), f.id, info)), path, f, done + [info])
  {
    var s := SymbolRow(NextSymbolId(t.symbols), f.id, info);
    NextSymbolIdIsFresh(t.symbols);
    InsertSymbolViews(t, path, s);
    FoundIsThere(t.files, path);
    InsertSymbolKeepsConsistent(t, s);
  }

  lemma {:induction false} NextSymbolGoesIn(before: Tables, t: Tables, path: string, f: FileRow, symbols: seq<SymbolInfo>, i: nat)
    requires i < |symbols| && Filling(before, t, path, f, symbols[..i])
    ensures Filling(before, WithSymbol(t, SymbolRow(NextSymbolId(t.symbols), f.id, symbols[i])), path, f, symbols[..i + 1])
  {
    SymbolGoesIn(before, t, path, f, symbols[..i], symbols[i]);
    assert symbols[..i + 1] == symbols[..i] + [symbols[i]];
  }

  class IndexDb {
    const tools: Tools
    var t: Tables

    constructor (tools: Tools)
      ensures this.tools == tools && t == NOTHING && Consistent(t)
    {
      this.tools := tools;
      t := NOTHING;
    }

    /** The statement `DELETE FROM files WHERE path = ?1`, firing the delete trigger symbol by symbol. */
    method DeleteFile(path: string)
      modifies this
      ensures t == DeletePath(old(t), path)
    {
      var found := FindFile(t.files, path);
      if found.None? {
        return;
      }
      var gone := SymbolsOf(t.symbols, found.value.id);
      var fts := FireDeleteTriggers(t.fts, gone);
      t := Tables(Filter(t.files, NotPath(path)), Filter(t.symbols, NotInFile(found.value.id)), Filter(t.refs, NotFrom(gone)), fts);
    }

    method FireDeleteTriggers(before: multiset<FtsRow>, gone: seq<SymbolRow>) returns (fts: multiset<FtsRow>)
      ensures fts == before - Projection(gone)
    {
      fts := before;
      for i := 0 to |gone|
        invariant fts == before - Projection(gone[..i])
      {
        assert gone[..i + 1][..i] == gone[..i];
        MinusTwice(before, Projection(gone[..i]), multiset{FtsOf(gone[i])});
        fts := fts - multiset{FtsOf(gone[i])};
      }
      assert gone[..|gone|] == gone;
    }

    /** `SELECT id FROM symbols WHERE .. ORDER BY (line_end - line_start) LIMIT 1`; ties go to the first row. */
    method ResolveCall(fileId: int, line: int) returns (r: Option<int>)
      ensures var rows := SymbolsOf(t.symbols, fileId);
              r == match Innermost(Infos(rows), line) case Some(k) => Some(rows[k].id) case None => None
    {
      var rows := SymbolsOf(t.symbols, fileId);
      var best: Option<nat> := None;
      for i := 0 to |rows|
        invariant best == Innermost(Infos(rows)[..i], line)
        invariant best.Some? ==> best.value < i
      {
        assert Infos(rows)[..i + 1][..i] == Infos(rows)[..i];
        var s := rows[i].info;
        if Encloses(s, line) && (best.None? || Width(s) < Width(rows[best.value].info)) {
          best := Some(i);
        }
      }
      assert Infos(rows)[..|rows|] == Infos(rows);
      r := match best case Some(k) => Some(rows[k].id) case None => None;
    }

    /** Insert the extracted symbols one by one under the new file row. */
    method InsertSymbols(path: string, f: FileRow, symbols: seq<SymbolInfo>)
      requires Consistent(t) && FindFile(t.files, path) == Some(f)
      requires View(t, path) == Some(FileView(f.lang, f.contentHash, [], []))
      modifies this
      ensures Consistent(t) && FindFile(t.files, path) == Some(f)
      ensures View(t, path) == Some(FileView(f.lang, f.contentHash, symbols, []))
      ensures OthersSame(old(t), t, path) && t.files == old(t.files)
    {
      for i := 0 to |symbols|
        invariant Filling(old(t), t, path, f, symbols[..i])
      {
        var s := SymbolRow(NextSymbolId(t.symbols), f.id, symbols[i]);
        NextSymbolGoesIn(old(t), t, path, f, symbols, i);
        t := WithSymbol(t, s);
      }
      assert symbols[..|symbols|] == symbols;
    }

    /** Resolve each call to its innermost symbol and insert a ref; calls outside every symbol are skipped. */
    method InsertRefs(path: string, f: FileRow, symbols: seq<SymbolInfo>, calls: seq<Call>)
      requires Consistent(t) && FindFile(t.files, path) == Some(f)
      requires View(t, path) == Some(FileView(f.lang, f.contentHash, symbols, []))
      modifies this
      ensures Consistent(t)
      ensures View(t, path) == Some(FileView(f.lang, f.contentHash, symbols, Resolve(symbols, calls)))
      ensures OthersSame(old(t), t, path) && t.files == old(t.files)
    {
      for j := 0 to |calls|
        invariant Consistent(t) && FindFile(t.files, path) == Some(f)
        invariant View(t, path) == Some(FileView(f.lang, f.contentHash, symbols, Resolve(symbols, calls[..j])))
        invariant OthersSame(old(t), t, path) && t.files == old(t.files)
      {
        assert calls[..j + 1][..j] == calls[..j];
        assert Infos(SymbolsOf(t.symbols, f.id)) == symbols;
        assert Innermost(symbols, calls[j].line).None? ==> Resolve(symbols, calls[..j + 1]) == Resolve(symbols, calls[..j]);
        var from := ResolveCall(f.id, calls[j].line);
        if from.Some? {
          ghost var k := Innermost(symbols, calls[j].line).value;
          var r := RefRow(NextRefId(t.refs), from.value, calls[j].callee, calls[j].line);
          InsertRefViews(t, path, r, k);
          RowIsSymbol(t.symbols, f.id, k);
          InsertRefKeepsConsistent(t, r);
          t := WithRef(t, r);
        }
      }
      assert calls[..|calls|] == calls;
    }

    /** `index_file`: the freshness guard, then the replace transaction. */
    method IndexFile(req: Request) returns (r: Result<IndexStats, IndexError>)
      requires Consistent(t)
      modifies this
      ensures Consistent(t) && Outcome(tools, old(t), req, t, r)
    {
      var path := req.path;
      var lang := tools.detect(path);
      if lang.None? {
        return Ok(IndexStats(0, false));
      }
      if req.bytes.None? {
        return Err(ReadFailed);
      }
      var bytes := req.bytes.value;
      var existing := FindFile(t.files, path);
      if existing.Some? && existing.value.contentHash == tools.hash(bytes) {
        return Ok(IndexStats(0, true));
      }
      var symbols, calls := tools.symbols(lang.value, bytes), tools.calls(lang.value, bytes);
      if symbols.None? || calls.None? {
        return Err(ParseFailed);
      }
      DeleteKeepsConsistent(t, path);
      DeleteViews(t, path);
      DeleteFile(path);
      var f := FileRow(NextFileId(t.files), path, lang.value, tools.hash(bytes), req.mtimeNs, req.now);
      NextFileIdIsFresh(t.files);
      InsertFileViews(t, f);
      InsertFileKeepsConsistent(t, f);
      FindAfterInsert(t.files, f, path);
      t := WithFile(t, f);
      InsertSymbols(path, f, symbols.value);
      InsertRefs(path, f, symbols.value, calls.value);
      ReplacedRowIsStamped(old(t), t, req, f);
      return Ok(IndexStats(|symbols.value|, false));
    }
  }

  lemma {:induction false} RowIsSymbol(symbols: seq<SymbolRow>, fileId: int, k: nat)
    requires k < |SymbolsOf(symbols, fileId)|
    ensures HasSymbol(symbols, SymbolsOf(symbols, fileId)[k].id)
  {
    var x := FilterFrom(symbols, InFile(fileId), k);
  }

  // ---------- histories ----------

  /** One call of a history: what was asked, and the tables and answer it left. */
  datatype Step = Step(req: Request, after: Tables, r: Result<IndexStats, IndexError>)

  const NOTHING := Tables([], [], [], multiset{})

  /** The tables a history of calls on an empty index leaves. */
  function Final(history: seq<Step>): Tables {
    if history == [] then NOTHING else history[|history| - 1].after
  }

  /** Every step is an outcome of `index_file` on the tables the step before it left. */
  ghost predicate History(tools: Tools, history: seq<Step>) {
    forall i :: 0 <= i < |history| ==> Outcome(tools, Final(history[..i]), history[i].req, history[i].after, history[i].r)
  }

  /** The contents a request can be indexed with, if it is for this path. */
  function Indexable(tools: Tools, req: Request, path: string): (r: Option<Bytes>)
    ensures r.Some? ==> Extracts(tools, path, r.value)
  {
    if req.path == path && req.bytes.Some? && Extracts(tools, path, req.bytes.value) then req.bytes else None
  }

  /** The contents a path was last seen with, among requests that could be read and parsed. */
  function LastContents(tools: Tools, history: seq<Step>, path: string): (r: Option<Bytes>)
    ensures r.Some? ==> Extracts(tools, path, r.value)
  {
    if history == [] then None
    else
      var newest := Indexable(tools, history[|history| - 1].req, path);
      if newest.Some? then newest else LastContents(tools, history[..|history| - 1], path)
  }

  /** What a build from scratch of those contents gives. */
  function Rebuilt(tools: Tools, history: seq<Step>, path: string): Option<FileView> {
    match LastContents(tools, history, path)
    case Some(b) => Some(Build(tools, path, b))
    case None => None
  }

  /** After the first `n` calls, the rows of the path are, row ids aside, those of a build from scratch. */
  ghost predicate Matches(tools: Tools, history: seq<Step>, path: string, n: nat)
    requires n <= |history|
  {
    View(Final(history[..n]), path) == Rebuilt(tools, history[..n], path)
  }

  /** Call `n` does not come with contents that hash like the path's last ones and build differently. */
  ghost predicate HashTells(tools: Tools, history: seq<Step>, path: string, n: nat)
    requires n < |history|
  {
    var last, next := LastContents(tools, history[..n], path), Indexable(tools, history[n].req, path);
    last.Some? && next.Some? && tools.hash(last.value) == tools.hash(next.value) ==>
      Build(tools, path, last.value) == Build(tools, path, next.value)
  }

  lemma {:induction false} OneCall(tools: Tools, history: seq<Step>, path: string, n: nat)
    requires History(tools, history) && n < |history| && Matches(tools, history, path, n)
    ensures Matches(tools, history, path, n + 1) <==> HashTells(tools, history, path, n)
  {
    assert history[..n + 1][..n] == history[..n];
    var before, step := Final(history[..n]), history[n];
    assert Final(history[..n + 1]) == step.after;
    assert Outcome(tools, before, step.req, step.after, step.r);
  }

  lemma {:induction false} MatchesWhileItTells(tools: Tools, history: seq<Step>, path: string, n: nat)
    requires History(tools, history) && n <= |history|
    requires forall k :: 0 <= k < n ==> HashTells(tools, history, path, k)
    ensures Matches(tools, history, path, n)
  {
    if n > 0 {
      MatchesWhileItTells(tools, history, path, n - 1);
      assert HashTells(tools, history, path, n - 1);
      OneCall(tools, history, path, n - 1);
    }
  }

  /**
   Over every history of calls on changing files, starting from an empty index: the rows of a path are,
   after every call, those of a fresh build of its last indexed contents (and none if there are none),
   iff no call ever came with contents that hash like the last ones and build differently. With an
   injective hash that is always so.
   */
  lemma {:induction false} HistoryMatchesRebuild(tools: Tools, history: seq<Step>, path: string)
    requires History(tools, history)
    ensures (forall n :: 0 <= n <= |history| ==> Matches(tools, history, path, n)) <==>
            (forall n :: 0 <= n < |history| ==> HashTells(tools, history, path, n))
  {
    if forall n :: 0 <= n < |history| ==> HashTells(tools, history, path, n) {
      forall n | 0 <= n <= |history| ensures Matches(tools, history, path, n) {
        MatchesWhileItTells(tools, history, path, n);
      }
    }
    if forall n :: 0 <= n <= |history| ==> Matches(tools, history, path, n) {
      forall n | 0 <= n < |history| ensures HashTells(tools, history, path, n) {
        assert Matches(tools, history, path, n) && Matches(tools, history, path, n + 1);
        OneCall(tools, history, path, n);
      }
    }
  }

  /** The run behind it: index one content, then another that collides with it. The rows stay those of the first. */
  method CollisionLeavesStaleRows(tools: Tools, path: string, a: Bytes, b: Bytes) returns (db: IndexDb)
    requires Extracts(tools, path, a) && Extracts(tools, path, b)
    requires tools.hash(a) == tools.hash(b) && Build(tools, path, a) != Build(tools, path, b)
    ensures fresh(db) && View(db.t, path) == Some(Build(tools, path, a)) != Some(Build(tools, path, b))
  {
    db := new IndexDb(tools);
    var first := db.IndexFile(Request(path, Some(a), 0, 0));
    var second := db.IndexFile(Request(path, Some(b), 1, 1));
  }

  /** No history breaks the constraints: keys stay unique, nothing dangles, full text mirrors `symbols`. */
  lemma {:induction false} HistoryStaysConsistent(tools: Tools, history: seq<Step>, n: nat)
    requires History(tools, history) && n <= |history|
    ensures Consistent(Final(history[..n]))
  {
    if n > 0 {
      HistoryStaysConsistent(tools, history, n - 1);
      var step := history[n - 1];
      assert Outcome(tools, Final(history[..n - 1]), step.req, step.after, step.r);
    }
  }
}
