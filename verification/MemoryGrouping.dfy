/** db/memory_storage.py: how `search_similarity` groups result rows into memories. */
module MemoryGrouping {
  import opened Text

  datatype Role = User | Assistant | System | Tool | Agent | Observer

  /** `Summary` and `Message` rows, and the rows of all other source types. */
  datatype Source = Summary | Message | OtherSource

  datatype Row = Row(role: Role, sourceId: int, content: string, source: Source, similarity: real,
                     conversationId: Option<int>, createdAt: int)

  datatype Fragment = Fragment(id: int, role: Role, content: string)

  /** A memory takes its other attributes from the row that opened it. */
  datatype Memory = Memory(fragments: seq<Fragment>, head: Row)

  datatype PairKey = SummaryOf(id: int) | PairOf(id: int)

  datatype Grouping = Grouping(memories: seq<Memory>, current: Option<Memory>, lastKey: Option<PairKey>)

  function FragmentOf(row: Row): Fragment {
    Fragment(row.sourceId, row.role, row.content)
  }

  function KeyOf(row: Row, lastKey: Option<PairKey>): Option<PairKey> {
    if row.source.Summary? then Some(SummaryOf(row.sourceId))
    else if row.role.User? then Some(PairOf(row.sourceId))
    else lastKey
  }

  function Flushed(g: Grouping): seq<Memory> {
    if g.current.Some? && g.current.value.fragments != [] then g.memories + [g.current.value] else g.memories
  }

  function Take(g: Grouping, row: Row): Grouping {
    var key := KeyOf(row, g.lastKey);
    var next :=
      if key != g.lastKey || row.source.Summary? then Grouping(Flushed(g), Some(Memory([], row)), g.lastKey) else g;
    if next.current.None? then next
    else
      var m := next.current.value.(fragments := next.current.value.fragments + [FragmentOf(row)]);
      if row.source.Message? && |m.fragments| != 2 then Grouping(next.memories, Some(m), key)
      else Grouping(next.memories + [m], None, None)
  }

  function TakeAll(g: Grouping, rows: seq<Row>): Grouping
    decreases |rows|
  {
    if rows == [] then g else TakeAll(Take(g, rows[0]), rows[1..])
  }

  function Group(rows: seq<Row>): seq<Memory> {
    Flushed(TakeAll(Grouping([], None, None), rows))
  }

  function GroupAll(results: seq<seq<Row>>): seq<Memory> {
    if results == [] then [] else GroupAll(results[..|results| - 1]) + Group(results[|results| - 1])
  }

  /** The rows found for each embedding are grouped by themselves. */
  method SearchSimilarity(results: seq<seq<Row>>) returns (memories: seq<Memory>)
    ensures memories == GroupAll(results)
  {
    memories := [];
    for i := 0 to |results|
      invariant memories == GroupAll(results[..i])
    {
      assert results[..i + 1][..i] == results[..i];
      memories := GroupRows(results[i], memories);
    }
    assert results[..|results|] == results;
  }

  method GroupRows(rows: seq<Row>, found: seq<Memory>) returns (memories: seq<Memory>)
    ensures memories == found + Group(rows)
  {
    memories := found;
    var current: Option<Memory> := None;
    var lastKey: Option<PairKey> := None;
    ghost var start := Grouping([], None, None);
    ghost var mine: seq<Memory> := [];
    for i := 0 to |rows|
      invariant memories == found + mine
      invariant TakeAll(start, rows) == TakeAll(Grouping(mine, current, lastKey), rows[i..])
    {
      var row := rows[i];
      ghost var g := Grouping(mine, current, lastKey);
      assert rows[i..][1..] == rows[i + 1..];
      var key := if row.source.Summary? then Some(SummaryOf(row.sourceId))
        else if row.role.User? then Some(PairOf(row.sourceId)) else lastKey;
      var fragment := FragmentOf(row);
      if key != lastKey || row.source.Summary? {
        if current.Some? && current.value.fragments != [] {
          Regroup(found, mine, [current.value]);
          memories, mine := memories + [current.value], mine + [current.value];
        }
        current := Some(Memory([], row));
      }
      if current.Some? {
        current := Some(current.value.(fragments := current.value.fragments + [fragment]));
        if row.source.Message? {
          lastKey := key;
          if |current.value.fragments| == 2 {
            Regroup(found, mine, [current.value]);
            memories, mine := memories + [current.value], mine + [current.value];
            current, lastKey := None, None;
          }
        } else {
          Regroup(found, mine, [current.value]);
          memories, mine := memories + [current.value], mine + [current.value];
          current, lastKey := None, None;
        }
      }
      assert Grouping(mine, current, lastKey) == Take(g, row);
    }
    assert rows[|rows|..] == [];
    if current.Some? && current.value.fragments != [] {
      Regroup(found, mine, [current.value]);
      memories := memories + [current.value];
    }
  }

  // -------------------------------------------------------------------- what is kept

  /** An open memory holds exactly the one user message that opened it. */
  ghost predicate Inv(g: Grouping) {
    && (forall m | m in g.memories :: 1 <= |m.fragments| <= 2 && m.fragments[0] == FragmentOf(m.head))
    && match g.current
       case None => g.lastKey == None
       case Some(m) =>
         && m.fragments == [FragmentOf(m.head)] && m.head.role.User? && m.head.source.Message?
         && g.lastKey == Some(PairOf(m.head.sourceId))
  }

  /** The user message that is open, as far as later rows can tell. */
  function OpenUser(g: Grouping): Option<int> {
    if g.current.Some? then Some(g.current.value.head.sourceId) else None
  }

  /** A row is dropped exactly when it is neither a summary nor a user row and no user message is open. */
  predicate Dropped(open: Option<int>, row: Row) {
    !row.source.Summary? && !row.role.User? && open.None?
  }

  /** Which user message is open after a row. */
  function NextOpen(open: Option<int>, row: Row): Option<int> {
    if row.source.Message? && row.role.User? && open != Some(row.sourceId) then Some(row.sourceId)
    else None
  }

  function Kept(open: Option<int>, rows: seq<Row>): seq<Fragment>
    decreases |rows|
  {
    if rows == [] then []
    else (if Dropped(open, rows[0]) then [] else [FragmentOf(rows[0])]) + Kept(NextOpen(open, rows[0]), rows[1..])
  }

  function Flatten(memories: seq<Memory>): seq<Fragment> {
    if memories == [] then [] else Flatten(memories[..|memories| - 1]) + memories[|memories| - 1].fragments
  }

  /** Fragments taken so far, the open one included. */
  function Taken(g: Grouping): seq<Fragment> {
    Flatten(g.memories) + if g.current.Some? then g.current.value.fragments else []
  }

  /** A fragment has the id, the role and the content of its row. */
  lemma FragmentIs(row: Row)
    ensures var f := FragmentOf(row); f.id == row.sourceId && f.role == row.role && f.content == row.content
  {
  }

  lemma FlattenLast(memories: seq<Memory>, m: Memory)
    ensures Flatten(memories + [m]) == Flatten(memories) + m.fragments
  {
    assert (memories + [m])[..|memories|] == memories;
  }

  lemma TakeKeeps(g: Grouping, row: Row)
    requires Inv(g)
    ensures Inv(Take(g, row)) && OpenUser(Take(g, row)) == NextOpen(OpenUser(g), row)
    ensures Taken(Take(g, row)) == Taken(g) + if Dropped(OpenUser(g), row) then [] else [FragmentOf(row)]
  {
    hide Flatten;
    var key := KeyOf(row, g.lastKey);
    var t := Take(g, row);
    if key != g.lastKey || row.source.Summary? {
      var m := Memory([FragmentOf(row)], row);
      NothingMore([FragmentOf(row)]);
      NothingMore(Flatten(g.memories));
      if g.current.Some? { FlattenLast(g.memories, g.current.value); }
      FlattenLast(Flushed(g), m);
      assert row.source.Message? ==> t == Grouping(Flushed(g), Some(m), key);
      assert !row.source.Message? ==> t == Grouping(Flushed(g) + [m], None, None);
      NothingMore(Flatten(t.memories));
    } else if g.current.Some? {
      var user := g.current.value;
      var m := user.(fragments := user.fragments + [FragmentOf(row)]);
      FlattenLast(g.memories, m);
      assert |m.fragments| == 2 && t == Grouping(g.memories + [m], None, None);
      Regroup(Flatten(g.memories), user.fragments, [FragmentOf(row)]);
      NothingMore(Flatten(t.memories));
    } else {
      assert t == g;
      NothingMore(Taken(g));
    }
  }

  lemma {:induction false} TakeAllKeeps(g: Grouping, rows: seq<Row>)
    requires Inv(g)
    ensures Inv(TakeAll(g, rows)) && Taken(TakeAll(g, rows)) == Taken(g) + Kept(OpenUser(g), rows)
    decreases |rows|
  {
    hide Take, Taken, Inv;
    if rows == [] {
      NothingMore(Taken(g));
    } else {
      TakeKeeps(g, rows[0]);
      TakeAllKeeps(Take(g, rows[0]), rows[1..]);
      Regroup(Taken(g), if Dropped(OpenUser(g), rows[0]) then [] else [FragmentOf(rows[0])],
              Kept(NextOpen(OpenUser(g), rows[0]), rows[1..]));
    }
  }

  /** For any rows: the fragments of the memories, in order, are exactly the rows that are not dropped,
      in order; every memory has one or two fragments, the first from the row that opened it. */
  lemma GroupingKeepsOrder(rows: seq<Row>)
    ensures Flatten(Group(rows)) == Kept(None, rows)
    ensures forall m | m in Group(rows) :: 1 <= |m.fragments| <= 2 && m.fragments[0] == FragmentOf(m.head)
  {
    hide Flatten;
    var start := Grouping([], None, None);
    var g := TakeAll(start, rows);
    FlattenNothing();
    NothingMore(Kept(None, rows));
    TakeAllKeeps(start, rows);
    if g.current.Some? {
      FlattenLast(g.memories, g.current.value);
    } else {
      NothingMore(Flatten(g.memories));
    }
  }

  lemma FlattenNothing()
    ensures Flatten([]) == [] && Taken(Grouping([], None, None)) == []
  {
  }

  // -------------------------------------------------------------------- well-formed results

  /** What well-formed results are made of: summaries, user messages followed by an answer, and loose
      rows that are neither summaries nor from a user (search results and documents carry no role and
      come as system rows). */
  datatype Unit = Single(row: Row) | Pair(user: Row, answer: Row) | Loose(row: Row)

  predicate WellFormed(u: Unit) {
    match u
    case Single(row) => row.source.Summary?
    case Pair(user, answer) => user.source.Message? && user.role.User? && answer.source.Message? && !answer.role.User?
    case Loose(row) => !row.source.Summary? && !row.role.User?
  }

  function RowsOf(us: seq<Unit>): seq<Row> {
    if us == [] then []
    else
      (match us[0] case Single(row) => [row] case Pair(user, answer) => [user, answer] case Loose(row) => [row])
      + RowsOf(us[1..])
  }

  function MemoriesOf(us: seq<Unit>): seq<Memory> {
    if us == [] then []
    else
      (match us[0]
       case Single(row) => [Memory([FragmentOf(row)], row)]
       case Pair(user, answer) => [Memory([FragmentOf(user), FragmentOf(answer)], user)]
       case Loose(_) => [])
      + MemoriesOf(us[1..])
  }

  lemma {:induction false} UnitsGroup(memories: seq<Memory>, us: seq<Unit>)
    requires forall u | u in us :: WellFormed(u)
    ensures TakeAll(Grouping(memories, None, None), RowsOf(us)) == Grouping(memories + MemoriesOf(us), None, None)
    decreases |us|
  {
    var g := Grouping(memories, None, None);
    if us == [] {
      NothingMore(memories);
    } else {
      var rest := RowsOf(us[1..]);
      var rows := RowsOf(us);
      assert us[0] in us && WellFormed(us[0]);
      match us[0] {
        case Single(row) =>
          var m := Memory([FragmentOf(row)], row);
          assert rows[0] == row && rows[1..] == rest;
          NothingMore([FragmentOf(row)]);
          assert Take(g, row) == Grouping(memories + [m], None, None);
          UnitsGroup(memories + [m], us[1..]);
          Regroup(memories, [m], MemoriesOf(us[1..]));
        case Pair(user, answer) =>
          PairGroups(memories, user, answer, rest);
          var m := Memory([FragmentOf(user), FragmentOf(answer)], user);
          UnitsGroup(memories + [m], us[1..]);
          Regroup(memories, [m], MemoriesOf(us[1..]));
        case Loose(row) =>
          assert rows[0] == row && rows[1..] == rest && Take(g, row) == g;
          UnitsGroup(memories, us[1..]);
          NothingMore(MemoriesOf(us[1..]));
      }
    }
  }

  lemma PairGroups(memories: seq<Memory>, user: Row, answer: Row, rest: seq<Row>)
    requires WellFormed(Pair(user, answer))
    ensures TakeAll(Grouping(memories, None, None), [user, answer] + rest) ==
      TakeAll(Grouping(memories + [Memory([FragmentOf(user), FragmentOf(answer)], user)], None, None), rest)
  {
    var g := Grouping(memories, None, None);
    var rows := [user, answer] + rest;
    assert rows[1..][1..] == rest && rows[1..][0] == answer;
    var g1 := Take(g, user);
    NothingMore([FragmentOf(user)]);
    assert g1 == Grouping(memories, Some(Memory([FragmentOf(user)], user)), Some(PairOf(user.sourceId)));
    assert [FragmentOf(user)] + [FragmentOf(answer)] == [FragmentOf(user), FragmentOf(answer)];
    assert TakeAll(g, rows) == TakeAll(g1, rows[1..]) == TakeAll(Take(g1, answer), rest);
  }

  /** Summaries and question-answer pairs are not lost: they give one memory each, in order, with
      exactly their fragments. Loose rows between them give nothing: search results and documents,
      although fetched, never reach a memory. */
  lemma WellFormedResultsAreLossless(us: seq<Unit>)
    requires forall u | u in us :: WellFormed(u)
    ensures Group(RowsOf(us)) == MemoriesOf(us)
  {
    UnitsGroup([], us);
    NothingMore(MemoriesOf(us));
  }
}
