/**
 `jkr_call_path`: the shortest chain of calls between two symbol names, found by a breadth-first
 search over the `refs` table and rendered by walking parents back from the symbol reached.
 */
module CallPath {
  import opened Wrappers
  import opened Schema

  // ---------- what a call chain is ----------

  ghost predicate Named(db: Tables, id: int, name: string) {
    exists k :: 0 <= k < |db.symbols| && db.symbols[k].id == id && db.symbols[k].info.name == name
  }

  /** One hop: some ref inside symbol `a`, at `line`, names symbol `b`. */
  ghost predicate CallsAt(db: Tables, a: int, b: int, line: int) {
    exists r, s :: 0 <= r < |db.refs| && 0 <= s < |db.symbols| && JoinsAt(db, r, s, a, b, line)
  }

  ghost predicate JoinsAt(db: Tables, r: int, s: int, a: int, b: int, line: int)
    requires 0 <= r < |db.refs| && 0 <= s < |db.symbols|
  {
    && db.refs[r].fromSymbolId == a && db.refs[r].line == line
    && db.symbols[s].id == b && db.symbols[s].info.name == db.refs[r].toName
  }

  ghost predicate Calls(db: Tables, a: int, b: int) {
    exists line :: CallsAt(db, a, b, line)
  }

  /** A non-empty sequence of symbol ids, each calling the next. Its length in edges is `|p| - 1`. */
  ghost predicate IsChain(db: Tables, p: seq<int>) {
    |p| >= 1 && forall i :: 0 <= i < |p| - 1 ==> Calls(db, p[i], p[i + 1])
  }

  ghost predicate Connects(db: Tables, p: seq<int>, from: string, to: string) {
    IsChain(db, p) && Named(db, p[0], from) && Named(db, p[|p| - 1], to)
  }

  // ---------- queries ----------

  /** How many of the first `n` symbols have a name. */
  function RowsNamed(symbols: seq<SymbolRow>, name: string, n: nat): nat
    requires n <= |symbols|
  {
    if n == 0 then 0 else RowsNamed(symbols, name, n - 1) + if symbols[n - 1].info.name == name then 1 else 0
  }

  /** `SELECT id FROM symbols WHERE name = ?1` */
  method SymbolsNamed(db: Tables, name: string) returns (ids: seq<int>)
    ensures forall id :: id in ids <==> Named(db, id, name)
    ensures |ids| == RowsNamed(db.symbols, name, |db.symbols|)
  {
    ids := [];
    for k := 0 to |db.symbols|
      invariant |ids| == RowsNamed(db.symbols, name, k)
      invariant forall id :: id in ids <==>
                             exists j :: 0 <= j < k && db.symbols[j].id == id && db.symbols[j].info.name == name
    {
      if db.symbols[k].info.name == name {
        ids := ids + [db.symbols[k].id];
      }
    }
  }

  datatype StepRow = StepRow(prevId: int, nextId: int, nextName: string, callLine: int)

  ghost predicate IsStepRow(db: Tables, cur: int, row: StepRow) {
    row.prevId == cur && CallsAt(db, cur, row.nextId, row.callLine) && Named(db, row.nextId, row.nextName)
  }

  ghost predicate Joined(db: Tables, cur: int, r: int, s: int)
    requires 0 <= r < |db.refs| && 0 <= s < |db.symbols|
  {
    db.refs[r].fromSymbolId == cur && db.symbols[s].info.name == db.refs[r].toName
  }

  ghost predicate HasNext(rows: seq<StepRow>, b: int) {
    exists i :: 0 <= i < |rows| && rows[i].nextId == b
  }

  lemma {:induction false} OneMoreRow(rows: seq<StepRow>, row: StepRow)
    ensures HasNext(rows + [row], row.nextId) && forall b :: HasNext(rows, b) ==> HasNext(rows + [row], b)
  {
    assert (rows + [row])[|rows|] == row;
    forall b | HasNext(rows, b) ensures HasNext(rows + [row], b) {
      var i :| 0 <= i < |rows| && rows[i].nextId == b;
      assert (rows + [row])[i].nextId == b;
    }
  }

  /** The join of `refs` and `symbols` on the callee name. Row order is left to the database. */
  method StepRows(db: Tables, cur: int) returns (rows: seq<StepRow>)
    ensures forall i :: 0 <= i < |rows| ==> IsStepRow(db, cur, rows[i])
    ensures forall b :: Calls(db, cur, b) ==> HasNext(rows, b)
  {
    rows := [];
    for r := 0 to |db.refs|
      invariant forall i :: 0 <= i < |rows| ==> IsStepRow(db, cur, rows[i])
      invariant forall j, s :: 0 <= j < r && 0 <= s < |db.symbols| && Joined(db, cur, j, s) ==> HasNext(rows, db.symbols[s].id)
    {
      for s := 0 to |db.symbols|
        invariant forall i :: 0 <= i < |rows| ==> IsStepRow(db, cur, rows[i])
        invariant forall j, k :: 0 <= j < r && 0 <= k < |db.symbols| && Joined(db, cur, j, k) ==> HasNext(rows, db.symbols[k].id)
        invariant forall k :: 0 <= k < s && Joined(db, cur, r, k) ==> HasNext(rows, db.symbols[k].id)
      {
        if db.refs[r].fromSymbolId == cur && db.symbols[s].info.name == db.refs[r].toName {
          var row := StepRow(cur, db.symbols[s].id, db.symbols[s].info.name, db.refs[r].line);
          assert JoinsAt(db, r, s, cur, row.nextId, row.callLine);
          OneMoreRow(rows, row);
          rows := rows + [row];
        }
      }
    }
    forall b | Calls(db, cur, b) ensures HasNext(rows, b) {
      var line :| CallsAt(db, cur, b, line);
      var r, s :| 0 <= r < |db.refs| && 0 <= s < |db.symbols| && JoinsAt(db, r, s, cur, b, line);
      assert Joined(db, cur, r, s);
    }
  }

  // ---------- search ----------

  /** A queue entry: a symbol and the level it was reached at. */
  datatype Item = Item(id: int, level: int)

  datatype Parent = Parent(prevId: int, callLine: int)

  /** What the search knows about the symbols met so far, with `depth` recording each one's level. */
  ghost predicate Tree(db: Tables, from: string, visited: set<int>, starts: set<int>,
                       parent: map<int, Parent>, depth: map<int, nat>)
  {
    && visited == depth.Keys
    && starts <= visited
    && parent.Keys == visited - starts
    && (forall v :: v in starts ==> Named(db, v, from) && depth[v] == 0)
    && (forall v {:trigger parent[v]} :: v in parent ==>
                      && parent[v].prevId in visited
                      && depth[v] == depth[parent[v].prevId] + 1
                      && CallsAt(db, parent[v].prevId, v, parent[v].callLine))
  }

  /** Every symbol at a level below `d` has had all its callees visited, one level down at most. */
  ghost predicate ExpandedBelow(db: Tables, depth: map<int, nat>, d: nat) {
    forall v, w :: v in depth && depth[v] < d && Calls(db, v, w) ==> w in depth && depth[w] <= depth[v] + 1
  }

  /**
   What happened so far: `order` is everything ever queued, oldest first, of which `popped` entries
   have been taken; `at` says where each symbol stands in it and `depth` at which level.
   */
  datatype Trace = Trace(order: seq<Item>, at: map<int, nat>, popped: nat, depth: map<int, nat>)

  ghost predicate LevelsAscend(order: seq<Item>) {
    forall i, j :: 0 <= i <= j < |order| ==> order[i].level <= order[j].level
  }

  /** Every symbol met is queued, and every entry is for a symbol met, at its level. */
  ghost predicate EntriesMatch(t: Trace) {
    && t.at.Keys == t.depth.Keys
    && (forall v :: v in t.at ==> t.at[v] < |t.order| && t.order[t.at[v]] == Item(v, t.depth[v]))
    && (forall i :: 0 <= i < |t.order| ==> t.order[i].id in t.depth && t.depth[t.order[i].id] == t.order[i].level)
  }

  /** The queue matches the symbols met, and levels never decrease along it. */
  ghost predicate QueueSorted(t: Trace) {
    t.popped <= |t.order| && EntriesMatch(t) && LevelsAscend(t.order)
  }

  /** Levels are lower bounds: a chain of `i` edges from a start cannot leave the expanded levels. */
  lemma {:induction false} ChainStaysVisited(db: Tables, from: string, depth: map<int, nat>, d: nat, p: seq<int>, i: nat)
    requires forall v :: Named(db, v, from) ==> v in depth && depth[v] == 0
    requires ExpandedBelow(db, depth, d)
    requires IsChain(db, p) && Named(db, p[0], from) && i < |p| && i <= d
    ensures p[i] in depth && depth[p[i]] <= i
  {
    if i > 0 {
      ChainStaysVisited(db, from, depth, d, p, i - 1);
      assert Calls(db, p[i - 1], p[i - 1 + 1]);
    }
  }

  /** No chain between the two names has `d` calls or fewer. */
  ghost predicate NoChainWithin(db: Tables, from: string, to: string, d: nat) {
    forall p :: Connects(db, p, from, to) ==> |p| - 1 > d
  }

  lemma {:induction false} ExpandedMeansNoChain(db: Tables, from: string, to: string, depth: map<int, nat>, d: nat)
    requires forall v :: Named(db, v, from) ==> v in depth && depth[v] == 0
    requires ExpandedBelow(db, depth, d)
    requires forall v :: v in depth ==> !Named(db, v, to)
    ensures NoChainWithin(db, from, to, d)
  {
    forall p | Connects(db, p, from, to)
      ensures |p| - 1 > d
    {
      if |p| - 1 <= d {
        ChainStaysVisited(db, from, depth, d, p, |p| - 1);
      }
    }
  }

  ghost predicate NamesUnique(db: Tables) {
    forall id, a, b :: Named(db, id, a) && Named(db, id, b) ==> a == b
  }

  ghost function AllIds(db: Tables): set<int> {
    set k | 0 <= k < |db.symbols| :: db.symbols[k].id
  }

  datatype Hop = Hop(id: int, kind: string, name: string, path: string, lineStart: int, callLine: Option<int>)

  datatype Answer =
    | NoSuchSymbol
    | Trivial(candidates: nat)
    | Found(depth: nat, hops: seq<Hop>)
    | NoPath

  datatype QueryError = SymbolVanished(id: int)

  ghost function Ids(hops: seq<Hop>): (p: seq<int>)
    ensures |p| == |hops|
  {
    seq(|hops|, i requires 0 <= i < |hops| => hops[i].id)
  }

  /** The rendered hops are rows of the database, and every later hop shows a line of a real call to it. */
  ghost predicate HopsAreReal(db: Tables, hops: seq<Hop>) {
    && (forall i :: 0 <= i < |hops| ==> DescribesSymbol(db, hops[i]))
    && (|hops| > 0 ==> hops[0].callLine == None)
    && (forall i :: 0 < i < |hops| ==> hops[i].callLine.Some? && CallsAt(db, hops[i - 1].id, hops[i].id, hops[i].callLine.value))
  }

  ghost predicate DescribesSymbol(db: Tables, h: Hop) {
    exists s, f :: 0 <= s < |db.symbols| && 0 <= f < |db.files| && RowsMatch(db, s, f, h)
  }

  ghost predicate RowsMatch(db: Tables, s: int, f: int, h: Hop)
    requires 0 <= s < |db.symbols| && 0 <= f < |db.files|
  {
    && db.symbols[s].id == h.id && db.symbols[s].fileId == db.files[f].id
    && db.symbols[s].info.kind == h.kind && db.symbols[s].info.name == h.name
    && db.files[f].path == h.path && db.symbols[s].info.lineStart == h.lineStart
  }

  /** `SELECT .. FROM symbols JOIN files .. WHERE s.id = ?1`, for one hop of the rendered chain. */
  method LookupHop(db: Tables, id: int, callLine: Option<int>) returns (r: Result<Hop, QueryError>)
    ensures r.Ok? ==> r.value.id == id && r.value.callLine == callLine && DescribesSymbol(db, r.value)
    ensures r.Err? ==> r.error == SymbolVanished(id)
    ensures r.Err? ==> forall s, f :: 0 <= s < |db.symbols| && 0 <= f < |db.files| ==>
                                        !(db.symbols[s].id == id && db.symbols[s].fileId == db.files[f].id)
  {
    for s := 0 to |db.symbols|
      invariant forall j, f :: 0 <= j < s && 0 <= f < |db.files| ==>
                                 !(db.symbols[j].id == id && db.symbols[j].fileId == db.files[f].id)
    {
      for f := 0 to |db.files|
        invariant forall g :: 0 <= g < f ==> !(db.symbols[s].id == id && db.symbols[s].fileId == db.files[g].id)
      {
        if db.symbols[s].id == id && db.symbols[s].fileId == db.files[f].id {
          var info := db.symbols[s].info;
          var hop := Hop(id, info.kind, info.name, db.files[f].path, info.lineStart, callLine);
          assert RowsMatch(db, s, f, hop);
          return Ok(hop);
        }
      }
    }
    return Err(SymbolVanished(id));
  }

  function Reverse(s: seq<int>): (r: seq<int>)
    ensures |r| == |s| && forall i :: 0 <= i < |s| ==> r[i] == s[|s| - 1 - i]
  {
    if s == [] then [] else Reverse(s[1..]) + [s[0]]
  }

  /** Follow `parent` from `terminal` until a start symbol, then put the ids in call order. */
  method WalkBack(db: Tables, from: string, terminal: int, parent: map<int, Parent>, starts: set<int>,
                  ghost visited: set<int>, ghost depth: map<int, nat>)
    returns (chain: seq<int>)
    requires Tree(db, from, visited, starts, parent, depth)
    requires terminal in visited
    ensures |chain| == depth[terminal] + 1
    ensures chain[0] in starts && chain[|chain| - 1] == terminal
    ensures forall i :: 0 <= i < |chain| ==> chain[i] in visited
    ensures forall i :: 0 < i < |chain| ==> chain[i] in parent && parent[chain[i]].prevId == chain[i - 1]
  {
    chain := [terminal];
    var cur := terminal;
    while cur in parent
      invariant |chain| >= 1 && cur in visited && chain[|chain| - 1] == cur && chain[0] == terminal
      invariant |chain| == depth[terminal] - depth[cur] + 1
      invariant forall i :: 0 <= i < |chain| ==> chain[i] in visited
      invariant forall i :: 0 <= i < |chain| - 1 ==> chain[i] in parent && parent[chain[i]].prevId == chain[i + 1]
      decreases depth[cur]
    {
      cur := parent[cur].prevId;
      chain := chain + [cur];
      if cur in starts {
        break;
      }
    }
    chain := Reverse(chain);
  }

  ghost predicate Describable(db: Tables, id: int) {
    exists s, f :: 0 <= s < |db.symbols| && 0 <= f < |db.files| && db.symbols[s].id == id && db.symbols[s].fileId == db.files[f].id
  }

  ghost predicate AllDescribable(db: Tables) {
    forall id :: id in AllIds(db) ==> Describable(db, id)
  }

  lemma {:induction false} HopAdded(db: Tables, hops: seq<Hop>, hop: Hop)
    requires HopsAreReal(db, hops) && DescribesSymbol(db, hop)
    requires if hops == [] then hop.callLine == None
             else hop.callLine.Some? && CallsAt(db, hops[|hops| - 1].id, hop.id, hop.callLine.value)
    ensures HopsAreReal(db, hops + [hop])
    ensures Ids(hops + [hop]) == Ids(hops) + [hop.id]
  {
  }

  /** The second loop of `render_path`: one row, and the call line that led to it, per symbol. */
  method RenderChain(db: Tables, chain: seq<int>, parent: map<int, Parent>) returns (r: Result<seq<Hop>, QueryError>)
    requires forall i :: 0 < i < |chain| ==> chain[i] in parent && CallsAt(db, chain[i - 1], chain[i], parent[chain[i]].callLine)
    ensures r.Ok? ==> HopsAreReal(db, r.value) && Ids(r.value) == chain
    ensures r.Err? ==> exists i :: 0 <= i < |chain| && !Describable(db, chain[i])
  {
    var out: seq<Hop> := [];
    for i := 0 to |chain|
      invariant HopsAreReal(db, out)
      invariant Ids(out) == chain[..i]
    {
      var line := if i == 0 then None else Some(parent[chain[i]].callLine);
      var hop := LookupHop(db, chain[i], line);
      if hop.Err? {
        return Err(hop.error);
      }
      assert i > 0 ==> Ids(out)[i - 1] == chain[i - 1];
      HopAdded(db, out, hop.value);
      out := out + [hop.value];
    }
    return Ok(out);
  }

  lemma {:induction false} FoundConnects(db: Tables, from: string, to: string, terminal: int, hops: seq<Hop>)
    requires HopsAreReal(db, hops) && |hops| >= 1
    requires Named(db, hops[0].id, from) && hops[|hops| - 1].id == terminal && Named(db, terminal, to)
    ensures Connects(db, Ids(hops), from, to)
  {
    var p := Ids(hops);
    forall i | 0 <= i < |p| - 1 ensures Calls(db, p[i], p[i + 1]) {
      assert CallsAt(db, hops[i + 1 - 1].id, hops[i + 1].id, hops[i + 1].callLine.value);
    }
  }

  /** Walk back, then look every symbol up. Foreign keys rule out the "vanished mid-walk" error. */
  method RenderPath(db: Tables, from: string, ghost to: string, terminal: int, parent: map<int, Parent>, starts: set<int>,
                    ghost visited: set<int>, ghost depth: map<int, nat>)
    returns (r: Result<seq<Hop>, QueryError>)
    requires AllDescribable(db) && Tree(db, from, visited, starts, parent, depth)
    requires terminal in visited && Named(db, terminal, to)
    requires visited <= AllIds(db)
    ensures r.Ok? && HopsAreReal(db, r.value)
    ensures |r.value| == depth[terminal] + 1
    ensures Connects(db, Ids(r.value), from, to)
  {
    var chain := WalkBack(db, from, terminal, parent, starts, visited, depth);
    r := RenderChain(db, chain, parent);
    assert Ids(r.value)[0] == r.value[0].id && Ids(r.value)[|chain| - 1] == r.value[|chain| - 1].id;
    FoundConnects(db, from, to, terminal, r.value);
  }

  /**
   The invariant of the search: no symbol with the goal's name was met, and every symbol popped had
   all its callees visited, one level down at most, unless the depth cap stopped it.
   */
  ghost predicate Searching(db: Tables, to: string, maxDepth: nat, t: Trace) {
    && QueueSorted(t)
    && (forall v :: v in t.depth ==> !Named(db, v, to))
    && (t.popped < |t.order| ==> forall v :: v in t.depth ==> t.depth[v] <= t.order[t.popped].level + 1)
    && (forall v, w :: v in t.at && t.at[v] < t.popped && t.depth[v] < maxDepth && Calls(db, v, w) ==>
                         w in t.depth && t.depth[w] <= t.depth[v] + 1)
  }

  /** What scanning the callees of a symbol at level `d` does to the queue. */
  ghost predicate Grew(t0: Trace, t: Trace, d: nat) {
    && t.popped == t0.popped
    && (forall v :: v in t0.depth ==> v in t.depth && t.depth[v] == t0.depth[v])
    && (forall v :: v in t0.at ==> v in t.at && t.at[v] == t0.at[v])
    && (forall v :: v in t.depth && v !in t0.depth ==> t.depth[v] == d + 1)
    && |t0.order| <= |t.order| && t.order[..|t0.order|] == t0.order
    && (forall v :: v in t.at && v !in t0.at ==> t.at[v] >= |t0.order|)
    && (forall i :: 0 <= i < |t.order| ==> t.order[i].level <= d + 1)
  }

  /** Rows carry real symbols, and a symbol has one name, so testing the row's name tests the symbol's. */
  ghost predicate RowsDecide(db: Tables, to: string, all: set<int>, rows: seq<StepRow>) {
    forall i :: 0 <= i < |rows| ==> rows[i].nextId in all && (rows[i].nextName == to <==> Named(db, rows[i].nextId, to))
  }

  lemma {:induction false} FewerLeft(all: set<int>, before: set<int>, after: set<int>)
    requires before <= after <= all && after != before
    ensures all - after < all - before
  {
    assert before == all - (all - before) && after == all - (all - after);
  }

  /** What the search has in hand: the symbols met, how each was reached, and the queue. */
  datatype Reached = Reached(visited: set<int>, parent: map<int, Parent>, frontier: seq<Item>)

  function Visit(s: Reached, row: StepRow, d: nat): Reached {
    Reached(s.visited + {row.nextId}, s.parent[row.nextId := Parent(row.prevId, row.callLine)], s.frontier + [Item(row.nextId, d + 1)])
  }

  function Enqueue(t: Trace, id: int, d: nat): Trace {
    Trace(t.order + [Item(id, d + 1)], t.at[id := |t.order|], t.popped, t.depth[id := d + 1])
  }

  /** What is in hand after part of a scan, with the head of the queue taken off, against what was before it. */
  ghost predicate InHand(all: set<int>, s0: Reached, s: Reached, t: Trace) {
    && t.popped < |t.order| && s.frontier == t.order[t.popped + 1..]
    && s0.visited <= s.visited <= all
    && (s.visited == s0.visited ==> s.frontier == s0.frontier)
  }

  /** The state of a scan of the rows of a symbol at level `d`, against the state before it. */
  ghost predicate Scanning(db: Tables, from: string, starts: set<int>, all: set<int>, d: nat, s0: Reached, t0: Trace, s: Reached, t: Trace) {
    && Tree(db, from, s.visited, starts, s.parent, t.depth)
    && QueueSorted(t) && Grew(t0, t, d) && InHand(all, s0, s, t)
  }

  lemma {:induction false} VisitKeepsTree(db: Tables, from: string, starts: set<int>, s: Reached, t: Trace, row: StepRow, d: nat)
    requires Tree(db, from, s.visited, starts, s.parent, t.depth)
    requires row.prevId in s.visited && t.depth[row.prevId] == d && CallsAt(db, row.prevId, row.nextId, row.callLine)
    requires row.nextId !in s.visited
    ensures Tree(db, from, Visit(s, row, d).visited, starts, Visit(s, row, d).parent, Enqueue(t, row.nextId, d).depth)
  {
  }

  lemma {:induction false} AppendLevel(order: seq<Item>, x: Item)
    requires LevelsAscend(order) && forall i :: 0 <= i < |order| ==> order[i].level <= x.level
    ensures LevelsAscend(order + [x])
  {
  }

  lemma {:induction false} EnqueueMatches(t: Trace, id: int, d: nat)
    requires EntriesMatch(t) && id !in t.depth
    ensures EntriesMatch(Enqueue(t, id, d))
  {
    var u := Enqueue(t, id, d);
    assert u.order[|t.order|] == Item(id, d + 1);
    forall v | v in u.at ensures u.at[v] < |u.order| && u.order[u.at[v]] == Item(v, u.depth[v]) {
      if v != id { assert t.order[t.at[v]] == Item(v, t.depth[v]); }
    }
    forall i | 0 <= i < |u.order| ensures u.order[i].id in u.depth && u.depth[u.order[i].id] == u.order[i].level {
      if i < |t.order| { assert u.order[i] == t.order[i] && t.order[i].id in t.depth; }
    }
  }

  lemma {:induction false} EnqueueKeepsOrder(t: Trace, id: int, d: nat)
    requires QueueSorted(t) && id !in t.depth && forall i :: 0 <= i < |t.order| ==> t.order[i].level <= d + 1
    ensures QueueSorted(Enqueue(t, id, d))
  {
    EnqueueMatches(t, id, d);
    AppendLevel(t.order, Item(id, d + 1));
  }

  lemma {:induction false} EnqueueGrows(t0: Trace, t: Trace, id: int, d: nat)
    requires Grew(t0, t, d) && QueueSorted(t0) && id !in t.depth
    ensures Grew(t0, Enqueue(t, id, d), d)
  {
    assert Enqueue(t, id, d).order[..|t0.order|] == t.order[..|t0.order|];
  }

  lemma {:induction false} VisitInHand(all: set<int>, s0: Reached, s: Reached, t: Trace, row: StepRow, d: nat)
    requires InHand(all, s0, s, t) && row.nextId in all && row.nextId !in s.visited
    ensures InHand(all, s0, Visit(s, row, d), Enqueue(t, row.nextId, d))
  {
    assert row.nextId in Visit(s, row, d).visited && row.nextId !in s0.visited;
  }

  lemma {:induction false} VisitKeepsScanning(db: Tables, from: string, starts: set<int>, all: set<int>, d: nat, s0: Reached, t0: Trace,
                           s: Reached, t: Trace, row: StepRow)
    requires Scanning(db, from, starts, all, d, s0, t0, s, t) && QueueSorted(t0)
    requires row.prevId in s.visited && t.depth[row.prevId] == d && CallsAt(db, row.prevId, row.nextId, row.callLine)
    requires row.nextId in all && row.nextId !in s.visited
    ensures Scanning(db, from, starts, all, d, s0, t0, Visit(s, row, d), Enqueue(t, row.nextId, d))
  {
    VisitKeepsTree(db, from, starts, s, t, row, d);
    EnqueueKeepsOrder(t, row.nextId, d);
    EnqueueGrows(t0, t, row.nextId, d);
    VisitInHand(all, s0, s, t, row, d);
  }

  /** The inner loop: visit the unseen callees of a symbol at level `d`, stopping at one named `to`. */
  method ScanRows(db: Tables, from: string, to: string, cur: int, d: nat, rows: seq<StepRow>, starts: set<int>, ghost all: set<int>,
                  s0: Reached, ghost t0: Trace)
    returns (hit: Option<int>, s: Reached, ghost t: Trace)
    requires Scanning(db, from, starts, all, d, s0, t0, s0, t0)
    requires RowsDecide(db, to, all, rows)
    requires forall v :: v in t0.depth ==> !Named(db, v, to)
    requires cur in s0.visited && t0.depth[cur] == d
    requires forall i :: 0 <= i < |rows| ==> IsStepRow(db, cur, rows[i])
    ensures Scanning(db, from, starts, all, d, s0, t0, s, t)
    ensures s0.visited <= s.visited <= all
    ensures hit.None? ==> forall i :: 0 <= i < |rows| ==> rows[i].nextId in s.visited
    ensures hit.None? ==> forall v :: v in t.depth ==> !Named(db, v, to)
    ensures hit.Some? ==> hit.value in s.visited && Named(db, hit.value, to)
    ensures hit.Some? ==> t.depth[hit.value] == d + 1
  {
    hit, s, t := None, s0, t0;
    for k := 0 to |rows|
      invariant Scanning(db, from, starts, all, d, s0, t0, s, t)
      invariant forall v :: v in t.depth ==> !Named(db, v, to)
      invariant forall j :: 0 <= j < k ==> rows[j].nextId in s.visited
    {
      var row := rows[k];
      assert IsStepRow(db, cur, row);
      if row.nextId in s.visited {
        continue;
      }
      VisitKeepsScanning(db, from, starts, all, d, s0, t0, s, t, row);
      s, t := Visit(s, row, d), Enqueue(t, row.nextId, d);
      if row.nextName == to {
        hit := Some(row.nextId);
        return;
      }
    }
  }

  /** The start symbols enter the queue at level 0. */
  method SeedQueue(ids: seq<int>, ghost starts: set<int>) returns (frontier: seq<Item>, ghost t: Trace)
    requires forall v :: v in starts <==> v in ids
    ensures t.order == frontier && t.popped == 0 && t.depth == (map v | v in starts :: 0) && QueueSorted(t)
    ensures forall i :: 0 <= i < |frontier| ==> frontier[i].level == 0
  {
    frontier := [];
    ghost var at: map<int, nat> := map[];
    for i := 0 to |ids|
      invariant forall v :: v in at ==> at[v] < |frontier| && frontier[at[v]] == Item(v, 0)
      invariant forall k :: 0 <= k < |frontier| ==> frontier[k].id in starts && frontier[k].level == 0
      invariant forall k :: 0 <= k < i ==> ids[k] in at
      invariant at.Keys <= starts
    {
      at := at[ids[i] := |frontier|];
      frontier := frontier + [Item(ids[i], 0)];
    }
    forall v | v in starts ensures v in at {
      var k :| 0 <= k < |ids| && ids[k] == v;
    }
    assert at.Keys == starts;
    t := Trace(frontier, at, 0, map v | v in starts :: 0);
  }

  lemma {:induction false} StartsAreNotGoals(db: Tables, from: string, to: string, starts: set<int>)
    requires NamesUnique(db) && from != to
    requires forall v :: v in starts ==> Named(db, v, from)
    ensures starts <= AllIds(db) && forall v :: v in starts ==> !Named(db, v, to)
  {
    forall v | v in starts ensures v in AllIds(db) {
      assert Named(db, v, from);
    }
  }

  lemma {:induction false} SearchStarts(db: Tables, from: string, to: string, maxDepth: nat, starts: set<int>, t: Trace)
    requires NamesUnique(db) && from != to
    requires forall v :: v in starts ==> Named(db, v, from)
    requires QueueSorted(t) && t.popped == 0 && t.depth == map v | v in starts :: 0
    requires forall i :: 0 <= i < |t.order| ==> t.order[i].level == 0
    ensures Tree(db, from, starts, starts, map[], t.depth) && starts <= AllIds(db)
    ensures Searching(db, to, maxDepth, t)
  {
    StartsAreNotGoals(db, from, to, starts);
    assert forall v :: v in t.depth ==> v in starts && t.depth[v] == 0;
  }

  /** Everything below the level at the head of the queue is expanded, so no chain that short was missed. */
  lemma {:induction false} NothingShort(db: Tables, from: string, to: string, maxDepth: nat, t: Trace)
    requires Searching(db, to, maxDepth, t)
    requires forall v :: Named(db, v, from) ==> v in t.depth && t.depth[v] == 0
    ensures t.popped < |t.order| && 0 <= t.order[t.popped].level <= maxDepth ==> NoChainWithin(db, from, to, t.order[t.popped].level)
    ensures t.popped == |t.order| ==> NoChainWithin(db, from, to, maxDepth)
  {
    var d := if t.popped < |t.order| then t.order[t.popped].level else maxDepth;
    if 0 <= d <= maxDepth {
      ExpandedMeansNoChain(db, from, to, t.depth, d);
    }
  }

  function Pop(t: Trace): Trace { t.(popped := t.popped + 1) }

  /** Levels after a scan of the head's callees: at most one below it, and not above it further down the queue. */
  lemma {:induction false} LevelsAfterScan(db: Tables, to: string, maxDepth: nat, t0: Trace, t: Trace, v: int)
    requires Searching(db, to, maxDepth, t0) && t0.popped < |t0.order|
    requires QueueSorted(t) && Grew(t0, t, t0.order[t0.popped].level) && v in t.depth
    ensures t.depth[v] <= t0.order[t0.popped].level + 1
    ensures t.popped + 1 < |t.order| ==> t.depth[v] <= t.order[t.popped + 1].level + 1
  {
    assert t.order[t.popped] == t.order[..|t0.order|][t.popped];
    assert t.order[t.at[v]] == Item(v, t.depth[v]);
  }

  /** Symbols up to the head of the queue stood there before the scan. */
  lemma {:induction false} PoppedBefore(t0: Trace, t: Trace, d: nat, v: int)
    requires QueueSorted(t0) && t0.popped < |t0.order| && Grew(t0, t, d) && QueueSorted(t)
    requires v in t.at && t.at[v] <= t.popped
    ensures v in t0.at && t0.at[v] == t.at[v] && t0.depth[v] == t.depth[v]
    ensures t.at[v] == t.popped ==> t0.order[t0.popped] == Item(v, t.depth[v])
  {
  }

  lemma {:induction false} PoppedIsExpanded(db: Tables, to: string, maxDepth: nat, t0: Trace, t: Trace, v: int, w: int)
    requires Searching(db, to, maxDepth, t0) && t0.popped < |t0.order|
    requires QueueSorted(t) && Grew(t0, t, t0.order[t0.popped].level)
    requires t0.order[t0.popped].level < maxDepth ==> forall x :: Calls(db, t0.order[t0.popped].id, x) ==> x in t.depth
    requires v in t.at && t.at[v] <= t.popped && t.depth[v] < maxDepth && Calls(db, v, w)
    ensures w in t.depth && t.depth[w] <= t.depth[v] + 1
  {
    PoppedBefore(t0, t, t0.order[t0.popped].level, v);
    if t.at[v] == t.popped {
      LevelsAfterScan(db, to, maxDepth, t0, t, w);
    } else {
      assert w in t0.depth;
    }
  }

  lemma {:induction false} PopKeepsSearching(db: Tables, to: string, maxDepth: nat, t0: Trace, t: Trace)
    requires Searching(db, to, maxDepth, t0) && t0.popped < |t0.order|
    requires QueueSorted(t) && Grew(t0, t, t0.order[t0.popped].level)
    requires forall v :: v in t.depth ==> !Named(db, v, to)
    requires t0.order[t0.popped].level < maxDepth ==> forall w :: Calls(db, t0.order[t0.popped].id, w) ==> w in t.depth
    ensures Searching(db, to, maxDepth, Pop(t))
  {
    forall v | v in t.depth ensures t.popped + 1 < |t.order| ==> t.depth[v] <= t.order[t.popped + 1].level + 1 {
      LevelsAfterScan(db, to, maxDepth, t0, t, v);
    }
    forall v, w | v in t.at && t.at[v] < t.popped + 1 && t.depth[v] < maxDepth && Calls(db, v, w)
      ensures w in t.depth && t.depth[w] <= t.depth[v] + 1
    {
      PoppedIsExpanded(db, to, maxDepth, t0, t, v, w);
    }
  }

  lemma {:induction false} NothingScanned(db: Tables, to: string, maxDepth: nat, t: Trace)
    requires Searching(db, to, maxDepth, t) && t.popped < |t.order|
    ensures t.order[t.popped].level >= 0 && Grew(t, t, t.order[t.popped].level)
  {
    assert t.order[t.popped].id in t.depth;
    forall i | 0 <= i < |t.order| ensures t.order[i].level <= t.order[t.popped].level + 1 {
      assert t.order[i].id in t.depth;
    }
  }

  /**
   The tool itself. `Found` is a real chain of exactly `depth` calls that no chain beats;
   `NoPath` is answered exactly when no chain has at most `maxDepth` calls.
   */
  method TryCallPath(db: Tables, from: string, to: string, maxDepth: nat) returns (r: Result<Answer, QueryError>)
    requires Consistent(db)
    ensures r.Ok?
    ensures r.value.NoSuchSymbol? <==> !exists id :: Named(db, id, from)
    ensures r.value.Trivial? <==> from == to && exists id :: Named(db, id, from)
    ensures r.value.Trivial? ==> r.value.candidates == RowsNamed(db.symbols, from, |db.symbols|)
    ensures r.value.Found? ==>
              && from != to
              && Connects(db, Ids(r.value.hops), from, to)
              && HopsAreReal(db, r.value.hops)
              && |r.value.hops| == r.value.depth + 1
              && 0 < r.value.depth <= maxDepth
              && NoChainWithin(db, from, to, r.value.depth - 1)
    ensures r.value.NoPath? <==>
            && from != to && (exists id :: Named(db, id, from))
            && NoChainWithin(db, from, to, maxDepth)
  {
    var startIds := SymbolsNamed(db, from);
    if startIds == [] {
      return Ok(NoSuchSymbol);
    }
    assert startIds[0] in startIds && Named(db, startIds[0], from);
    if from == to {
      return Ok(Trivial(|startIds|));
    }
    r := Search(db, from, to, maxDepth, startIds);
  }

  method Search(db: Tables, from: string, to: string, maxDepth: nat, startIds: seq<int>) returns (r: Result<Answer, QueryError>)
    requires NamesUnique(db) && AllDescribable(db) && from != to
    requires forall v :: v in startIds <==> Named(db, v, from)
    ensures r.Ok? && (r.value.Found? || r.value.NoPath?)
    ensures r.value.Found? ==>
              && Connects(db, Ids(r.value.hops), from, to)
              && HopsAreReal(db, r.value.hops)
              && |r.value.hops| == r.value.depth + 1
              && 0 < r.value.depth <= maxDepth
              && NoChainWithin(db, from, to, r.value.depth - 1)
    ensures r.value.NoPath? ==> NoChainWithin(db, from, to, maxDepth)
  {
    var starts := set id | id in startIds;
    var frontier;
    ghost var t;
    frontier, t := SeedQueue(startIds, starts);
    SearchStarts(db, from, to, maxDepth, starts, t);
    var hit, d, s;
    hit, d, s, t := SearchLoop(db, from, to, maxDepth, starts, Reached(starts, map[], frontier), t);
    if hit.Some? {
      var hops := RenderPath(db, from, to, hit.value, s.parent, starts, s.visited, t.depth);
      r := match hops case Ok(chain) => Ok(Found(d + 1, chain)) case Err(e) => Err(e);
    } else {
      r := Ok(NoPath);
    }
  }

  /** Between two turns of the search loop. */
  ghost predicate Between(db: Tables, from: string, to: string, maxDepth: nat, starts: set<int>, s: Reached, t: Trace) {
    && Tree(db, from, s.visited, starts, s.parent, t.depth) && s.visited <= AllIds(db)
    && Searching(db, to, maxDepth, t) && s.frontier == t.order[t.popped..]
  }

  /** The `while let` loop over the queue: where it stopped, if anywhere, and at which level. */
  method SearchLoop(db: Tables, from: string, to: string, maxDepth: nat, starts: set<int>, s0: Reached, ghost t0: Trace)
    returns (hit: Option<int>, d: nat, s: Reached, ghost t: Trace)
    requires NamesUnique(db) && forall v :: Named(db, v, from) ==> v in starts
    requires Between(db, from, to, maxDepth, starts, s0, t0)
    ensures Tree(db, from, s.visited, starts, s.parent, t.depth) && s.visited <= AllIds(db)
    ensures hit.Some? ==>
              && hit.value in s.visited && t.depth[hit.value] == d + 1 && Named(db, hit.value, to)
              && d < maxDepth && NoChainWithin(db, from, to, d)
    ensures hit.None? ==> NoChainWithin(db, from, to, maxDepth)
  {
    s, t := s0, t0;
    while s.frontier != []
      invariant Between(db, from, to, maxDepth, starts, s, t)
      decreases AllIds(db) - s.visited, |s.frontier|
    {
      d := s.frontier[0].level;
      if d >= maxDepth {
        NothingScanned(db, to, maxDepth, t);
        PopKeepsSearching(db, to, maxDepth, t, t);
        s, t := s.(frontier := s.frontier[1..]), Pop(t);
        continue;
      }
      hit, s, t := ExpandHead(db, from, to, maxDepth, starts, s, t);
      if hit.Some? {
        return;
      }
    }
    hit, d := None, 0;
    NothingShort(db, from, to, maxDepth, t);
  }

  lemma {:induction false} ScanStarts(db: Tables, from: string, to: string, maxDepth: nat, starts: set<int>, s0: Reached, taken: Reached, t0: Trace)
    requires Between(db, from, to, maxDepth, starts, s0, t0)
    requires s0.frontier != [] && taken == s0.(frontier := s0.frontier[1..])
    ensures s0.frontier[0] == t0.order[t0.popped] && s0.frontier[0].level >= 0
    ensures Scanning(db, from, starts, AllIds(db), s0.frontier[0].level, taken, t0, taken, t0)
    ensures s0.frontier[0].id in t0.depth && t0.depth[s0.frontier[0].id] == s0.frontier[0].level
  {
    NothingScanned(db, to, maxDepth, t0);
    assert InHand(AllIds(db), taken, taken, t0);
  }

  /** After a scan without a hit the head is popped, and either more symbols are visited or the queue is shorter. */
  lemma {:induction false} TurnDone(db: Tables, from: string, to: string, maxDepth: nat, starts: set<int>, rows: seq<StepRow>,
                         s0: Reached, taken: Reached, t0: Trace, s: Reached, t: Trace)
    requires Between(db, from, to, maxDepth, starts, s0, t0) && s0.frontier != [] && s0.frontier[0] == t0.order[t0.popped]
    requires s0.frontier[0].level >= 0 && taken == s0.(frontier := s0.frontier[1..])
    requires Scanning(db, from, starts, AllIds(db), s0.frontier[0].level, taken, t0, s, t)
    requires forall v :: v in t.depth ==> !Named(db, v, to)
    requires forall b :: Calls(db, s0.frontier[0].id, b) ==> HasNext(rows, b)
    requires forall i :: 0 <= i < |rows| ==> rows[i].nextId in s.visited
    ensures Between(db, from, to, maxDepth, starts, s, Pop(t))
    ensures AllIds(db) - s.visited < AllIds(db) - s0.visited || (s.visited == s0.visited && s.frontier == s0.frontier[1..])
  {
    PopKeepsSearching(db, to, maxDepth, t0, t);
    if s.visited != s0.visited { FewerLeft(AllIds(db), s0.visited, s.visited); }
  }

  /** One turn of the search loop below the depth cap: query the head's callees and visit them. */
  method ExpandHead(db: Tables, from: string, to: string, maxDepth: nat, starts: set<int>, s0: Reached, ghost t0: Trace)
    returns (hit: Option<int>, s: Reached, ghost t: Trace)
    requires NamesUnique(db) && forall v :: Named(db, v, from) ==> v in starts
    requires Between(db, from, to, maxDepth, starts, s0, t0)
    requires s0.frontier != [] && s0.frontier[0].level < maxDepth
    ensures Tree(db, from, s.visited, starts, s.parent, t.depth) && s.visited <= AllIds(db)
    ensures hit.None? ==>
              && Between(db, from, to, maxDepth, starts, s, t)
              && (AllIds(db) - s.visited < AllIds(db) - s0.visited || (s.visited == s0.visited && s.frontier == s0.frontier[1..]))
    ensures hit.Some? ==> hit.value in s.visited && t.depth[hit.value] == s0.frontier[0].level + 1 && Named(db, hit.value, to)
    ensures 0 <= s0.frontier[0].level && NoChainWithin(db, from, to, s0.frontier[0].level)
  {
    NothingShort(db, from, to, maxDepth, t0);
    var cur, d := s0.frontier[0].id, s0.frontier[0].level;
    var rows := StepRows(db, cur);
    StepRowsDecide(db, to, cur, rows);
    var taken := s0.(frontier := s0.frontier[1..]);
    ScanStarts(db, from, to, maxDepth, starts, s0, taken, t0);
    hit, s, t := ScanRows(db, from, to, cur, d, rows, starts, AllIds(db), taken, t0);
    if hit.None? {
      TurnDone(db, from, to, maxDepth, starts, rows, s0, taken, t0, s, t);
      t := Pop(t);
    }
  }

  lemma {:induction false} StepRowsDecide(db: Tables, to: string, cur: int, rows: seq<StepRow>)
    requires NamesUnique(db) && forall i :: 0 <= i < |rows| ==> IsStepRow(db, cur, rows[i])
    ensures RowsDecide(db, to, AllIds(db), rows)
  {
    forall i | 0 <= i < |rows| ensures rows[i].nextId in AllIds(db) && (rows[i].nextName == to <==> Named(db, rows[i].nextId, to)) {
      assert IsStepRow(db, cur, rows[i]);
      assert Named(db, rows[i].nextId, rows[i].nextName);
    }
  }
}
