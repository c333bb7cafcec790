/**
 What each SQL statement of `index_file` does to the views of all files, and that none of them
 breaks the constraints of the schema.
 */
module IndexerSteps {
  import opened Wrappers
  import opened Schema
  import opened Seqs
  import opened Indexer

  // ---------- lookups ----------

  lemma {:induction false} FindAfterDelete(files: seq<FileRow>, path: string, q: string)
    ensures FindFile(Filter(files, NotPath(path)), q) == if q == path then None else FindFile(files, q)
  {
    if files != [] {
      var init, last := files[..|files| - 1], files[|files| - 1];
      FindAfterDelete(init, path, q);
      FindAfterInsert(Filter(init, NotPath(path)), last, q);
      if last.path == path { assert Filter(files, NotPath(path)) == Filter(init, NotPath(path)); }
    }
  }

  lemma {:induction false} FindAfterInsert(files: seq<FileRow>, f: FileRow, q: string)
    ensures FindFile(files + [f], q) == if f.path == q then Some(f) else FindFile(files, q)
  {
    assert (files + [f])[..|files|] == files;
  }

  lemma {:induction false} FileIdsDiffer(files: seq<FileRow>, p: string, q: string)
    requires Ascends(files, FileKey()) && p != q
    requires FindFile(files, p).Some? && FindFile(files, q).Some?
    ensures FindFile(files, p).value.id != FindFile(files, q).value.id
  {
    var i :| 0 <= i < |files| && files[i] == FindFile(files, p).value;
    var j :| 0 <= j < |files| && files[j] == FindFile(files, q).value;
    KeysDiffer(files, FileKey(), i, j);
  }

  /** Symbols of different files have different ids. */
  lemma {:induction false} ForeignPlace(symbols: seq<SymbolRow>, a: int, b: int, i: nat)
    requires Ascends(symbols, SymbolKey()) && a != b && i < |SymbolsOf(symbols, a)|
    ensures PlaceOf(SymbolsOf(symbols, b), SymbolsOf(symbols, a)[i].id).None?
  {
    var x := FilterFrom(symbols, InFile(a), i);
    var place := PlaceOf(SymbolsOf(symbols, b), symbols[x].id);
    if place.Some? {
      var y := FilterFrom(symbols, InFile(b), place.value);
      KeysDiffer(symbols, SymbolKey(), x, y);
    }
  }

  /** Within one file, ids are distinct, so a row is found at its own place. */
  lemma {:induction false} OwnPlace(symbols: seq<SymbolRow>, fileId: int, k: nat)
    requires Ascends(symbols, SymbolKey()) && k < |SymbolsOf(symbols, fileId)|
    ensures PlaceOf(SymbolsOf(symbols, fileId), SymbolsOf(symbols, fileId)[k].id) == Some(k)
  {
    FilterAscends(symbols, InFile(fileId), SymbolKey());
    var rows := SymbolsOf(symbols, fileId);
    KeysDiffer(rows, SymbolKey(), PlaceOf(rows, rows[k].id).value, k);
  }

  lemma {:induction false} PlaceAfterInsert(rows: seq<SymbolRow>, s: SymbolRow, id: int)
    requires id != s.id
    ensures PlaceOf(rows + [s], id) == PlaceOf(rows, id)
  {
    assert (rows + [s])[..|rows|] == rows;
  }

  // ---------- refs of a file ----------

  lemma {:induction false} RefsAfterDelete(refs: seq<RefRow>, gone: seq<SymbolRow>, rows: seq<SymbolRow>)
    requires forall k :: 0 <= k < |rows| ==> PlaceOf(gone, rows[k].id).None?
    ensures RefsOf(Filter(refs, NotFrom(gone)), rows) == RefsOf(refs, rows)
  {
    if refs != [] {
      var init, last := refs[..|refs| - 1], refs[|refs| - 1];
      RefsAfterDelete(init, gone, rows);
      var kept := Filter(init, NotFrom(gone));
      if PlaceOf(gone, last.fromSymbolId).None? {
        assert (kept + [last])[..|kept|] == kept;
      } else {
        assert Filter(refs, NotFrom(gone)) == kept;
      }
    }
  }

  lemma {:induction false} RefsWithNewSymbol(refs: seq<RefRow>, rows: seq<SymbolRow>, s: SymbolRow)
    requires forall i :: 0 <= i < |refs| ==> refs[i].fromSymbolId != s.id
    ensures RefsOf(refs, rows + [s]) == RefsOf(refs, rows)
  {
    if refs != [] {
      var n := |refs| - 1;
      assert forall i :: 0 <= i < n ==> refs[..n][i] == refs[i];
      RefsWithNewSymbol(refs[..n], rows, s);
      PlaceAfterInsert(rows, s, refs[n].fromSymbolId);
    }
  }

  lemma {:induction false} NoRowsNoRefs(refs: seq<RefRow>)
    ensures RefsOf(refs, []) == []
  {
    if refs != [] { NoRowsNoRefs(refs[..|refs| - 1]); }
  }

  lemma {:induction false} RefsAfterInsert(refs: seq<RefRow>, r: RefRow, rows: seq<SymbolRow>)
    ensures RefsOf(refs + [r], rows) ==
            match PlaceOf(rows, r.fromSymbolId)
            case Some(k) => RefsOf(refs, rows) + [RefInfo(k, r.toName, r.line)]
            case None => RefsOf(refs, rows)
  {
    assert (refs + [r])[..|refs|] == refs;
  }

  // ---------- the full-text table ----------

  lemma {:induction false} ProjectionAppend(symbols: seq<SymbolRow>, s: SymbolRow)
    ensures Projection(symbols + [s]) == Projection(symbols) + multiset{FtsOf(s)}
  {
    assert (symbols + [s])[..|symbols|] == symbols;
  }

  lemma {:induction false} ProjectionSplits(symbols: seq<SymbolRow>, fileId: int)
    ensures Projection(symbols) == Projection(Filter(symbols, NotInFile(fileId))) + Projection(SymbolsOf(symbols, fileId))
  {
    if symbols != [] {
      var init, last := symbols[..|symbols| - 1], symbols[|symbols| - 1];
      ProjectionSplits(init, fileId);
      ProjectionAppend(Filter(init, NotInFile(fileId)), last);
      ProjectionAppend(SymbolsOf(init, fileId), last);
      if last.fileId == fileId {
        assert Filter(symbols, NotInFile(fileId)) == Filter(init, NotInFile(fileId));
      } else {
        assert SymbolsOf(symbols, fileId) == SymbolsOf(init, fileId);
      }
    }
  }

  // ---------- views ----------

  lemma {:induction false} DeleteOther(t: Tables, path: string, q: string)
    requires KeysAscend(t) && q != path
    ensures View(DeletePath(t, path), q) == View(t, q)
  {
    FindAfterDelete(t.files, path, q);
    if FindFile(t.files, path).Some? && FindFile(t.files, q).Some? {
      var f, g := FindFile(t.files, path).value, FindFile(t.files, q).value;
      FileIdsDiffer(t.files, path, q);
      FilterAgain(t.symbols, NotInFile(f.id), InFile(g.id));
      var gone, rows := SymbolsOf(t.symbols, f.id), SymbolsOf(t.symbols, g.id);
      forall k | 0 <= k < |rows| ensures PlaceOf(gone, rows[k].id).None? {
        ForeignPlace(t.symbols, g.id, f.id, k);
      }
      RefsAfterDelete(t.refs, gone, rows);
    }
  }

  lemma {:induction false} DeleteViews(t: Tables, path: string)
    requires KeysAscend(t)
    ensures View(DeletePath(t, path), path) == None
    ensures OthersSame(t, DeletePath(t, path), path)
  {
    FindAfterDelete(t.files, path, path);
    forall q | q != path ensures View(DeletePath(t, path), q) == View(t, q) {
      DeleteOther(t, path, q);
    }
  }

  lemma {:induction false} FreshFileHasNoSymbols(t: Tables, id: int)
    requires NothingDangles(t) && !HasFile(t.files, id)
    ensures SymbolsOf(t.symbols, id) == []
  {
    FilterNone(t.symbols, InFile(id));
  }

  lemma {:induction false} InsertFileViews(t: Tables, f: FileRow)
    requires NothingDangles(t) && !HasFile(t.files, f.id) && FindFile(t.files, f.path).None?
    ensures View(WithFile(t, f), f.path) == Some(FileView(f.lang, f.contentHash, [], []))
    ensures OthersSame(t, WithFile(t, f), f.path)
  {
    FindAfterInsert(t.files, f, f.path);
    FreshFileHasNoSymbols(t, f.id);
    NoRowsNoRefs(t.refs);
    forall q | q != f.path ensures View(WithFile(t, f), q) == View(t, q) {
      FindAfterInsert(t.files, f, q);
    }
  }

  lemma {:induction false} SymbolElsewhere(t: Tables, s: SymbolRow, g: FileRow)
    requires s.fileId != g.id
    ensures ViewOfFile(WithSymbol(t, s), g) == ViewOfFile(t, g)
  {
    FilterAppend(t.symbols, s, InFile(g.id));
    assert SymbolsOf(t.symbols + [s], g.id) == SymbolsOf(t.symbols, g.id);
  }

  lemma {:induction false} RefElsewhere(t: Tables, r: RefRow, g: FileRow, fileId: int, k: nat)
    requires Ascends(t.symbols, SymbolKey()) && fileId != g.id
    requires k < |SymbolsOf(t.symbols, fileId)| && r.fromSymbolId == SymbolsOf(t.symbols, fileId)[k].id
    ensures ViewOfFile(WithRef(t, r), g) == ViewOfFile(t, g)
  {
    var rows := SymbolsOf(t.symbols, g.id);
    ForeignPlace(t.symbols, fileId, g.id, k);
    RefsAfterInsert(t.refs, r, rows);
    assert RefsOf(t.refs + [r], rows) == RefsOf(t.refs, rows);
  }

  lemma {:induction false} InsertSymbolView(t: Tables, path: string, s: SymbolRow)
    requires NothingDangles(t) && !HasSymbol(t.symbols, s.id)
    requires FindFile(t.files, path).Some? && s.fileId == FindFile(t.files, path).value.id
    ensures var v := View(t, path).value;
            View(WithSymbol(t, s), path) == Some(FileView(v.lang, v.contentHash, v.symbols + [s.info], v.refs))
  {
    var rows := SymbolsOf(t.symbols, s.fileId);
    FilterAppend(t.symbols, s, InFile(s.fileId));
    forall i | 0 <= i < |t.refs| ensures t.refs[i].fromSymbolId != s.id {
      assert HasSymbol(t.symbols, t.refs[i].fromSymbolId);
    }
    RefsWithNewSymbol(t.refs, rows, s);
    assert Infos(rows + [s]) == Infos(rows) + [s.info];
  }

  lemma {:induction false} InsertSymbolViews(t: Tables, path: string, s: SymbolRow)
    requires KeysAscend(t) && NothingDangles(t) && !HasSymbol(t.symbols, s.id)
    requires FindFile(t.files, path).Some? && s.fileId == FindFile(t.files, path).value.id
    ensures var v := View(t, path).value;
            View(WithSymbol(t, s), path) == Some(FileView(v.lang, v.contentHash, v.symbols + [s.info], v.refs))
    ensures OthersSame(t, WithSymbol(t, s), path)
  {
    InsertSymbolView(t, path, s);
    forall q | q != path ensures View(WithSymbol(t, s), q) == View(t, q) {
      if FindFile(t.files, q).Some? {
        FileIdsDiffer(t.files, path, q);
        SymbolElsewhere(t, s, FindFile(t.files, q).value);
      }
    }
  }

  lemma {:induction false} InsertRefViews(t: Tables, path: string, r: RefRow, k: nat)
    requires KeysAscend(t) && FindFile(t.files, path).Some?
    requires var rows := SymbolsOf(t.symbols, FindFile(t.files, path).value.id); k < |rows| && r.fromSymbolId == rows[k].id
    ensures var v := View(t, path).value;
            View(WithRef(t, r), path) == Some(FileView(v.lang, v.contentHash, v.symbols, v.refs + [RefInfo(k, r.toName, r.line)]))
    ensures OthersSame(t, WithRef(t, r), path)
  {
    var id := FindFile(t.files, path).value.id;
    RefsAfterInsert(t.refs, r, SymbolsOf(t.symbols, id));
    OwnPlace(t.symbols, id, k);
    forall q | q != path ensures View(WithRef(t, r), q) == View(t, q) {
      if FindFile(t.files, q).Some? {
        FileIdsDiffer(t.files, path, q);
        RefElsewhere(t, r, FindFile(t.files, q).value, id, k);
      }
    }
  }

  // ---------- constraints ----------

  lemma {:induction false} DeleteKeepsKeys(t: Tables, path: string)
    requires KeysAscend(t) && PathsUnique(t.files)
    ensures KeysAscend(DeletePath(t, path)) && PathsUnique(DeletePath(t, path).files)
  {
    match FindFile(t.files, path) {
      case None =>
      case Some(f) =>
        FilterAscends(t.files, NotPath(path), FileKey());
        FilterAscends(t.symbols, NotInFile(f.id), SymbolKey());
        FilterAscends(t.refs, NotFrom(SymbolsOf(t.symbols, f.id)), RefKey());
        DeleteKeepsPaths(t.files, path);
    }
  }

  lemma {:induction false} DeleteKeepsPaths(files: seq<FileRow>, path: string)
    requires Ascends(files, FileKey()) && PathsUnique(files)
    ensures PathsUnique(Filter(files, NotPath(path)))
  {
    var kept, key := Filter(files, NotPath(path)), FileKey();
    FilterAscends(files, NotPath(path), key);
    forall i, j | 0 <= i < j < |kept| ensures kept[i].path != kept[j].path {
      var x := FilterFrom(files, NotPath(path), i);
      var y := FilterFrom(files, NotPath(path), j);
      assert key(kept[i]) < key(kept[j]);
      assert x != y;
    }
  }

  lemma {:induction false} DeletedFileSymbols(t: Tables, path: string, i: nat)
    requires NothingDangles(t) && PathsUnique(t.files) && FindFile(t.files, path).Some?
    requires i < |t.symbols| && t.symbols[i].fileId != FindFile(t.files, path).value.id
    ensures HasFile(Filter(t.files, NotPath(path)), t.symbols[i].fileId)
  {
    var f := FindFile(t.files, path).value;
    assert HasFile(t.files, t.symbols[i].fileId);
    var x :| 0 <= x < |t.files| && t.files[x].id == t.symbols[i].fileId;
    var y :| 0 <= y < |t.files| && t.files[y] == f;
    assert x != y && t.files[x].path != path;
    var z := FilterTo(t.files, NotPath(path), x);
  }

  lemma {:induction false} DeletedFileRefs(t: Tables, fileId: int, i: nat)
    requires NothingDangles(t) && i < |t.refs|
    requires PlaceOf(SymbolsOf(t.symbols, fileId), t.refs[i].fromSymbolId).None?
    ensures HasSymbol(Filter(t.symbols, NotInFile(fileId)), t.refs[i].fromSymbolId)
  {
    assert HasSymbol(t.symbols, t.refs[i].fromSymbolId);
    var x :| 0 <= x < |t.symbols| && t.symbols[x].id == t.refs[i].fromSymbolId;
    if t.symbols[x].fileId == fileId {
      var z := FilterTo(t.symbols, InFile(fileId), x);
    } else {
      var z := FilterTo(t.symbols, NotInFile(fileId), x);
    }
  }

  lemma {:induction false} DeleteLeavesNothingDangling(t: Tables, path: string)
    requires NothingDangles(t) && PathsUnique(t.files)
    ensures NothingDangles(DeletePath(t, path))
  {
    if FindFile(t.files, path).Some? {
      var f, after := FindFile(t.files, path).value, DeletePath(t, path);
      forall i | 0 <= i < |after.symbols| ensures HasFile(after.files, after.symbols[i].fileId) {
        var x := FilterFrom(t.symbols, NotInFile(f.id), i);
        DeletedFileSymbols(t, path, x);
      }
      forall i | 0 <= i < |after.refs| ensures HasSymbol(after.symbols, after.refs[i].fromSymbolId) {
        var x := FilterFrom(t.refs, NotFrom(SymbolsOf(t.symbols, f.id)), i);
        DeletedFileRefs(t, f.id, x);
      }
    }
  }

  lemma {:induction false} DeleteKeepsConsistent(t: Tables, path: string)
    requires Consistent(t)
    ensures Consistent(DeletePath(t, path))
  {
    DeleteKeepsKeys(t, path);
    DeleteLeavesNothingDangling(t, path);
    if FindFile(t.files, path).Some? {
      ProjectionSplits(t.symbols, FindFile(t.files, path).value.id);
    }
  }

  lemma {:induction false} NextFileIdIsFresh(files: seq<FileRow>)
    requires Ascends(files, FileKey())
    ensures !HasFile(files, NextFileId(files))
  {
    var key := FileKey();
    forall i | 0 <= i < |files| ensures files[i].id < NextFileId(files) {
      if i < |files| - 1 { assert key(files[i]) < key(files[|files| - 1]); }
    }
  }

  lemma {:induction false} NextSymbolIdIsFresh(symbols: seq<SymbolRow>)
    requires Ascends(symbols, SymbolKey())
    ensures !HasSymbol(symbols, NextSymbolId(symbols))
  {
    var key := SymbolKey();
    forall i | 0 <= i < |symbols| ensures symbols[i].id < NextSymbolId(symbols) {
      if i < |symbols| - 1 { assert key(symbols[i]) < key(symbols[|symbols| - 1]); }
    }
  }

  lemma {:induction false} MoreFiles(files: seq<FileRow>, f: FileRow, id: int)
    ensures HasFile(files + [f], id) <==> HasFile(files, id) || id == f.id
  {
    var all := files + [f];
    assert all[|files|] == f;
    if HasFile(files, id) {
      var i :| 0 <= i < |files| && files[i].id == id;
      assert all[i].id == id;
    }
  }

  lemma {:induction false} MoreSymbols(symbols: seq<SymbolRow>, s: SymbolRow, id: int)
    ensures HasSymbol(symbols + [s], id) <==> HasSymbol(symbols, id) || id == s.id
  {
    var all := symbols + [s];
    assert all[|symbols|] == s;
    if HasSymbol(symbols, id) {
      var i :| 0 <= i < |symbols| && symbols[i].id == id;
      assert all[i].id == id;
    }
  }

  lemma {:induction false} InsertFileKeepsConsistent(t: Tables, f: FileRow)
    requires Consistent(t) && f.id == NextFileId(t.files) && FindFile(t.files, f.path).None?
    ensures Consistent(WithFile(t, f))
  {
    AppendAscends(t.files, f, FileKey());
    forall i | 0 <= i < |t.symbols| ensures HasFile(t.files + [f], t.symbols[i].fileId) {
      assert HasFile(t.files, t.symbols[i].fileId);
      MoreFiles(t.files, f, t.symbols[i].fileId);
    }
  }

  lemma {:induction false} InsertSymbolKeepsConsistent(t: Tables, s: SymbolRow)
    requires Consistent(t) && s.id == NextSymbolId(t.symbols) && HasFile(t.files, s.fileId)
    ensures Consistent(WithSymbol(t, s))
  {
    AppendAscends(t.symbols, s, SymbolKey());
    ProjectionAppend(t.symbols, s);
    forall i | 0 <= i < |t.refs| ensures HasSymbol(t.symbols + [s], t.refs[i].fromSymbolId) {
      assert HasSymbol(t.symbols, t.refs[i].fromSymbolId);
      MoreSymbols(t.symbols, s, t.refs[i].fromSymbolId);
    }
  }

  lemma {:induction false} InsertRefKeepsConsistent(t: Tables, r: RefRow)
    requires Consistent(t) && r.id == NextRefId(t.refs) && HasSymbol(t.symbols, r.fromSymbolId)
    ensures Consistent(WithRef(t, r))
  {
    AppendAscends(t.refs, r, RefKey());
  }
}
