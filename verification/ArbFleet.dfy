/** Several managers, one symbol each, whose books share one table, as they do in one
    database: every book keeps its own symbol's record, and brings it back exactly, though a
    restart also loads the others' records and never refreshes them. */
module ArbFleet {
  import opened Wrappers
  import opened ArbRecords
  import opened ArbProtocol
  import opened ArbSafety

  /** The table is right about the book's own symbol. */
  predicate FaithfulAt(sym: string, open: map<string, ArbRecord>, table: map<string, Row>) {
    && (sym in open ==>
          var a := open[sym];
          a.symbol == sym && !a.state.Closed? && a.arbId in table && table[a.arbId] == RowOf(a))
    && (forall id :: id in table && !table[id].state.Closed? && table[id].symbol == sym ==>
          sym in open && open[sym].arbId == id)
  }

  /** Every row was written by some book. */
  predicate AllWritten(table: map<string, Row>) {
    forall id :: id in table ==> IsRow(table[id])
  }

  predicate IsRow(row: Row) {
    var a := FromDict(row.snapshot);
    a.Some? && row == RowOf(a.value)
  }

  lemma RowIsRow(a: ArbRecord)
    ensures IsRow(RowOf(a))
  {
    hide ToDict, FromDict;
    DictRoundTrip(a);
  }

  /** A reload of the shared table brings back exactly the book's own record, whatever else
      it loads. */
  lemma ReloadIsExactAt(sym: string, open: map<string, ArbRecord>, table: map<string, Row>, m: map<string, ArbRecord>)
    requires FaithfulAt(sym, open, table) && AllWritten(table) && LoadedFrom(m, table)
    ensures sym in m <==> sym in open
    ensures sym in m ==> m[sym] == open[sym]
  {
    hide ToDict, FromDict;
    if sym in m {
      var id :| id in table && Loads(table[id], m[sym]);
      assert IsRow(table[id]) && table[id] == RowOf(m[sym]) && m[sym].symbol == sym;
      RowLoads(open[sym], m[sym]);
    }
    if sym in open {
      RowLoads(open[sym], open[sym]);
    }
  }

  // ----- one write -----

  /** The row to be written is the book's own, or new. */
  predicate MayWrite(sym: string, id: string, open: map<string, ArbRecord>, table: map<string, Row>) {
    if sym in open then open[sym].arbId == id else id !in table
  }

  lemma OwnWrite(sym: string, id: string, b: BookView, b': BookView)
    requires FaithfulAt(sym, b.open, b.table) && MayWrite(sym, id, b.open, b.table) && Wrote(sym, id, b, b')
    ensures FaithfulAt(sym, b'.open, b'.table)
  {
    hide ToDict;
  }

  /** Another book's write leaves this one's faith alone. */
  lemma ForeignWrite(sym: string, open: map<string, ArbRecord>, other: string, id: string, b: BookView, b': BookView)
    requires sym != other && FaithfulAt(sym, open, b.table)
    requires FaithfulAt(other, b.open, b.table) && MayWrite(other, id, b.open, b.table) && Wrote(other, id, b, b')
    ensures FaithfulAt(sym, open, b'.table)
  {
    hide ToDict;
  }

  lemma WriteKeepsRows(sym: string, id: string, b: BookView, b': BookView)
    requires AllWritten(b.table) && Wrote(sym, id, b, b')
    ensures AllWritten(b'.table)
  {
    hide IsRow, RowOf;
    if x :| WroteThis(sym, id, b, b', x) {
      RowIsRow(x);
    }
  }

  // ----- runs of several books -----

  /** What each book holds in memory, the table they share, and the HALT flag. */
  datatype Fleet = Fleet(open: map<string, map<string, ArbRecord>>, table: map<string, Row>, halt: bool)

  /** A tick of one manager, with its own configuration, journal so far and positions. */
  datatype Action =
    | Signal(sym: string, c: Config, journal: seq<Event>, perp: real, spot: real, e: Replies)
    | Restart(sym: string)
    | Switch(halt: bool)

  function WorldOf(f: Fleet, act: Action): World
    requires act.Signal? && act.sym in f.open
  {
    World(BookView(f.open[act.sym], f.table, act.journal), f.halt, act.perp, act.spot)
  }

  ghost predicate Step(f: Fleet, act: Action, f': Fleet) {
    match act
    case Signal(sym, c, _, _, _, e) =>
      && sym in f.open && e.freshId !in f.table
      && var w := Tick(c, sym, WorldOf(f, act), e);
         f' == Fleet(f.open[sym := w.book.open], w.book.table, w.halt)
    case Restart(sym) =>
      sym in f.open && f'.table == f.table && f'.halt == f.halt && f'.open.Keys == f.open.Keys
      && f'.open == f.open[sym := f'.open[sym]] && LoadedFrom(f'.open[sym], f.table)
    case Switch(halt) => f' == f.(halt := halt)
  }

  predicate AllFaithful(f: Fleet) {
    AllWritten(f.table) && forall sym :: sym in f.open ==> FaithfulAt(sym, f.open[sym], f.table)
  }

  lemma SignalKeeps(f: Fleet, act: Action, f': Fleet)
    requires act.Signal? && AllFaithful(f) && Step(f, act, f')
    ensures AllFaithful(f')
  {
    hide Tick, FaithfulAt, AllWritten, Wrote;
    var sym, w := act.sym, WorldOf(f, act);
    OwnSymbol(sym, f.open[sym], f.table);
    var w' := Tick(act.c, sym, w, act.e);
    var id := Written(sym, w.book, act.e);
    TickWrites(act.c, sym, w, act.e);
    OwnWrite(sym, id, w.book, w'.book);
    WriteKeepsRows(sym, id, w.book, w'.book);
    forall s | s in f'.open && s != sym
      ensures FaithfulAt(s, f'.open[s], f'.table)
    {
      ForeignWrite(s, f.open[s], sym, id, w.book, w'.book);
    }
  }

  lemma OwnSymbol(sym: string, open: map<string, ArbRecord>, table: map<string, Row>)
    requires FaithfulAt(sym, open, table)
    ensures sym in open ==> open[sym].symbol == sym
  {
    hide RowOf;
  }

  /** Every step keeps every book faithful at its own symbol, and a restart gives it back the
      record it had. */
  lemma StepKeeps(f: Fleet, act: Action, f': Fleet)
    requires AllFaithful(f) && Step(f, act, f')
    ensures AllFaithful(f')
    ensures act.Restart? ==>
      && (act.sym in f'.open[act.sym] <==> act.sym in f.open[act.sym])
      && (act.sym in f.open[act.sym] ==> f'.open[act.sym][act.sym] == f.open[act.sym][act.sym])
  {
    if act.Signal? {
      SignalKeeps(f, act, f');
    } else if act.Restart? {
      hide RowOf, FromDict, LoadedSoFar, LoadedFrom;
      ReloadIsExactAt(act.sym, f.open[act.sym], f.table, f'.open[act.sym]);
    }
  }

  ghost predicate Run(fs: seq<Fleet>, acts: seq<Action>) {
    |fs| == |acts| + 1 && forall k :: 0 <= k < |acts| ==> Step(fs[k], acts[k], fs[k + 1])
  }

  /** So over every run of any number of managers on one table: from an empty table, say. */
  lemma {:induction false} RunKeeps(fs: seq<Fleet>, acts: seq<Action>, k: nat)
    requires Run(fs, acts) && AllFaithful(fs[0]) && k < |fs|
    ensures AllFaithful(fs[k])
    decreases k
  {
    hide AllFaithful, Step;
    if k > 0 {
      RunKeeps(fs, acts, k - 1);
      StepKeeps(fs[k - 1], acts[k - 1], fs[k]);
    }
  }

}
