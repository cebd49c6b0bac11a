/** The cache of the source's catalogs, one section at a time: a section's rows
    and its "fetched" flag are committed by one transaction. */
module SectionCache {
  import opened Environment
  import opened Sequences

  datatype Section =
    | DatabaseProperties | Namespaces | TableData | TableDataParts
    | Indexes | Constraints | FkConstraints | SetSequences
    | AllSections

  /** What a command asks for. */
  datatype Request = Request(section: Section, skipProperties: bool, fkJobs: nat, split: bool)

  /** The committed flags, and every load of rows committed so far, in order. */
  datatype Store = Store(fetched: set<Section>, loads: seq<Section>)

  const Empty: Store := Store({}, [])

  const STEPS: nat := 6

  /** The sections fetched by a command, in the order they are fetched. */
  function Nth(k: nat): Section {
    match k
    case 0 => DatabaseProperties
    case 1 => Namespaces
    case 2 => TableData
    case 3 => Indexes
    case 4 => FkConstraints
    case _ => SetSequences
  }

  function Position(s: Section): nat {
    match s
    case DatabaseProperties => 0
    case Namespaces => 1
    case TableData => 2
    case Indexes => 3
    case FkConstraints => 4
    case SetSequences => 5
    case _ => 6
  }

  predicate Needs(r: Request, s: Section) {
    match s
    case DatabaseProperties => !r.skipProperties && (r.section.AllSections? || r.section.DatabaseProperties?)
    case Namespaces => !r.section.DatabaseProperties?
    case TableData =>
      r.section.AllSections? || r.section.TableData? || r.section.TableDataParts? || r.section.FkConstraints?
    case Indexes => r.section.AllSections? || r.section.Indexes? || r.section.Constraints?
    case FkConstraints => (r.fkJobs > 0 && r.section.AllSections?) || r.section.FkConstraints?
    case SetSequences => r.section.AllSections? || r.section.SetSequences?
    case _ => false
  }

  /** The flags that one load registers. */
  function Registers(r: Request, s: Section): set<Section> {
    match s
    case Indexes => {Indexes, Constraints}
    case TableData => if r.split then {TableData, TableDataParts} else {TableData}
    case _ => {s}
  }

  function LoadRows(db: Store, s: Section): Store {
    db.(loads := db.loads + [s])
  }

  function Register(db: Store, r: Request, s: Section): Store {
    db.(fetched := db.fetched + Registers(r, s))
  }

  /** One section: first its rows, then its flag. */
  function Load(db: Store, r: Request, s: Section): Store {
    Register(LoadRows(db, s), r, s)
  }

  /** The first n steps of the transaction; known are the flags read before it. */
  function Steps(db: Store, r: Request, known: set<Section>, n: nat): Store
    requires n <= STEPS
  {
    if n == 0 then db
    else One(Steps(db, r, known, n - 1), r, known, Nth(n - 1))
  }

  function One(db: Store, r: Request, known: set<Section>, s: Section): Store {
    if Needs(r, s) && s !in known then Load(db, r, s) else db
  }

  /** Nothing is fetched when everything is there already. */
  predicate AllDone(db: Store, r: Request) {
    && {DatabaseProperties, Namespaces, TableData, SetSequences, Indexes, Constraints} <= db.fetched
    && (r.fkJobs > 0 ==> FkConstraints in db.fetched)
    && (r.split ==> TableDataParts in db.fetched)
  }

  predicate FetchCatalogs(db: Store, r: Request) {
    && !AllDone(db, r)
    && (r.section.AllSections? || r.section !in db.fetched)
  }

  /** One command, by the state it leaves: all of its transaction, or nothing. */
  function Attempt(db: Store, r: Request, committed: bool): Store {
    if FetchCatalogs(db, r) && committed then Steps(db, r, db.fetched, STEPS) else db
  }

  datatype Command = Command(request: Request, committed: bool)

  function Replay(db: Store, commands: seq<Command>): Store
    decreases |commands|
  {
    if commands == [] then db
    else Replay(Attempt(db, commands[0].request, commands[0].committed), commands[1..])
  }

  /** The cache file, and a process that goes through its steps. */
  class Cache {
    var file: Store

    constructor ()
      ensures file == Empty
    {
      file := Empty;
    }

    /** Any step may fail, and the process may be killed between any two. A
        command that finds its section, or all of them, does nothing. */
    method FetchSchema(r: Request, world: World) returns (ok: bool, ghost committed: bool)
      modifies this, world
      ensures file == Attempt(old(file), r, committed)
      ensures ok <==> world.failures == old(world.failures)
      ensures ok && FetchCatalogs(old(file), r) ==> committed
      ensures r.section in old(file).fetched && !r.section.AllSections? ==> ok && file == old(file)
      ensures (forall s | s in {DatabaseProperties, Namespaces, TableData, SetSequences, Indexes, Constraints} ::
                 s in old(file).fetched)
              && (r.fkJobs > 0 ==> FkConstraints in old(file).fetched)
              && (r.split ==> TableDataParts in old(file).fetched)
              ==> ok && file == old(file)
    {
      var known := file.fetched;
      committed := false;
      if !FetchCatalogs(file, r) {
        return true, false;
      }
      var transaction := file;
      var i := 0;
      while i < STEPS
        invariant 0 <= i <= STEPS && file == old(file) && world.failures == old(world.failures)
        invariant transaction == Steps(file, r, known, i)
      {
        if Needs(r, Nth(i)) && Nth(i) !in known {
          ok := world.Try();
          if !ok {
            return;
          }
          transaction := LoadRows(transaction, Nth(i));
          ok := world.Try();
          if !ok {
            return;
          }
          transaction := Register(transaction, r, Nth(i));
        }
        i := i + 1;
      }
      ok := world.Try();
      if !ok {
        return;
      }
      file := transaction;
      committed := true;
      // the indexes of the catalog, built after the commit
      ok := world.Try();
    }
  }

  /* ---- over all runs ---- */

  predicate Cached(s: Section) {
    Position(s) < STEPS
  }

  /** A flag is up exactly when its rows were loaded, which was once. */
  ghost predicate Inv(db: Store) {
    && (forall s | Cached(s) :: Count(db.loads, s) == if s in db.fetched then 1 else 0)
    && (Constraints in db.fetched <==> Indexes in db.fetched)
    && (TableDataParts in db.fetched ==> TableData in db.fetched)
  }

  lemma PositionInjective(x: Section, s: Section)
    requires Cached(s) && Position(x) == Position(s)
    ensures x == s
  {
  }

  lemma RegistersOwn(r: Request, s: Section, x: Section)
    requires Cached(s) && Cached(x)
    ensures x in Registers(r, s) <==> x == s
  {
  }

  lemma RegistersTogether(r: Request, s: Section)
    requires Cached(s)
    ensures Constraints in Registers(r, s) <==> Indexes in Registers(r, s)
    ensures TableDataParts in Registers(r, s) ==> TableData in Registers(r, s)
  {
  }

  lemma LoadCount(db: Store, r: Request, s: Section, x: Section)
    requires Inv(db) && Cached(s) && s !in db.fetched && Cached(x)
    ensures Count(db.loads + [s], x) == if x in db.fetched + Registers(r, s) then 1 else 0
  {
    CountAppend(db.loads, s, x);
    RegistersOwn(r, s, x);
  }

  lemma LoadInv(db: Store, r: Request, s: Section)
    requires Inv(db) && Cached(s) && s !in db.fetched
    ensures Inv(Load(db, r, s))
  {
    var t := Load(db, r, s);
    assert t.loads == db.loads + [s] && t.fetched == db.fetched + Registers(r, s);
    forall x | Cached(x)
      ensures Count(t.loads, x) == if x in t.fetched then 1 else 0
    {
      LoadCount(db, r, s, x);
    }
    RegistersTogether(r, s);
  }

  /** Between the rows and the flag of one section they do not match: only the
      transaction keeps a crash from leaving it so. */
  lemma RowsBeforeFlag(db: Store, r: Request, s: Section)
    requires Inv(db) && Cached(s) && s !in db.fetched
    ensures !Inv(LoadRows(db, s)) && Inv(Register(LoadRows(db, s), r, s))
  {
    CountAppend(db.loads, s, s);
    LoadInv(db, r, s);
  }

  /** Between two steps of a transaction, the flags read before it are still
      exact for what comes next, and what the command needs so far is there. */
  ghost predicate Between(known: set<Section>, db: Store, r: Request, n: nat) {
    && Inv(db)
    && (forall s | Cached(s) && n <= Position(s) :: s in db.fetched <==> s in known)
    && (forall s | Cached(s) && Position(s) < n && Needs(r, s) :: s in db.fetched)
  }

  lemma OneBetween(known: set<Section>, db: Store, r: Request, s: Section)
    requires Cached(s) && Between(known, db, r, Position(s))
    ensures Between(known, One(db, r, known, s), r, Position(s) + 1)
  {
    var t := One(db, r, known, s);
    assert Inv(t) by {
      if Needs(r, s) && s !in known {
        LoadInv(db, r, s);
      }
    }
    forall x | Cached(x) && Position(x) > Position(s)
      ensures x in t.fetched <==> x in known
    {
      RegistersOwn(r, s, x);
    }
    forall x | Cached(x) && Position(x) <= Position(s) && Needs(r, x)
      ensures x in t.fetched
    {
      if Position(x) == Position(s) {
        PositionInjective(x, s);
        RegistersOwn(r, s, s);
      }
    }
  }

  lemma {:induction false} StepsInv(db: Store, r: Request, n: nat)
    requires Inv(db) && n <= STEPS
    ensures Between(db.fetched, Steps(db, r, db.fetched, n), r, n)
  {
    if n > 0 {
      StepsInv(db, r, n - 1);
      OneBetween(db.fetched, Steps(db, r, db.fetched, n - 1), r, Nth(n - 1));
    }
  }

  /** Over every sequence of commands, each committed or cut short anywhere: the
      flag of a section holds if and only if its rows were loaded, and they are
      loaded at most once. */
  lemma {:induction false} FlagsMatchRows(db: Store, commands: seq<Command>)
    requires Inv(db)
    ensures Inv(Replay(db, commands))
    ensures forall s | Cached(s) ::
              && Count(Replay(db, commands).loads, s) <= 1
              && (s in Replay(db, commands).fetched <==> Count(Replay(db, commands).loads, s) == 1)
    decreases |commands|
  {
    if commands != [] {
      var c := commands[0];
      StepsInv(db, c.request, STEPS);
      FlagsMatchRows(Attempt(db, c.request, c.committed), commands[1..]);
    }
  }

  /** What a committed command asked for is there, and asking again, in the same
      or in another process, loads nothing. */
  lemma AskingAgainLoadsNothing(db: Store, r: Request)
    requires Inv(db)
    ensures var once := Attempt(db, r, true);
            && (FetchCatalogs(db, r) ==> forall s | Cached(s) && Needs(r, s) :: s in once.fetched)
            && Attempt(once, r, true) == once
  {
    var once := Attempt(db, r, true);
    StepsInv(db, r, STEPS);
    if FetchCatalogs(once, r) && FetchCatalogs(db, r) {
      StepsNothing(once, r, STEPS);
    }
  }

  lemma {:induction false} StepsNothing(db: Store, r: Request, n: nat)
    requires n <= STEPS
    requires forall s | Cached(s) && Needs(r, s) :: s in db.fetched
    ensures Steps(db, r, db.fetched, n) == db
  {
    if n > 0 {
      StepsNothing(db, r, n - 1);
      assert Cached(Nth(n - 1));
    }
  }

  /** Each query can rely on the rows it reads: schemas come before all that is
      in them, and tables before their FOREIGN KEYs. */
  ghost predicate Ordered(loads: seq<Section>) {
    forall i | 0 <= i < |loads| ::
      && (loads[i] != DatabaseProperties && loads[i] != Namespaces ==> Namespaces in loads[..i])
      && (loads[i] == FkConstraints ==> TableData in loads[..i])
  }

  lemma OneOrdered(known: set<Section>, db: Store, r: Request, s: Section)
    requires Cached(s) && Between(known, db, r, Position(s)) && Ordered(db.loads)
    ensures Ordered(One(db, r, known, s).loads)
  {
    if Needs(r, s) && s !in known {
      CountPositive(db.loads, Namespaces);
      CountPositive(db.loads, TableData);
      var loads := db.loads + [s];
      forall i | 0 <= i < |loads|
        ensures loads[..i] == db.loads[..i]
      {
      }
      assert db.loads[..|db.loads|] == db.loads;
    }
  }

  lemma {:induction false} StepsOrdered(db: Store, r: Request, n: nat)
    requires Inv(db) && n <= STEPS && Ordered(db.loads)
    ensures Ordered(Steps(db, r, db.fetched, n).loads)
  {
    if n > 0 {
      StepsInv(db, r, n - 1);
      StepsOrdered(db, r, n - 1);
      OneOrdered(db.fetched, Steps(db, r, db.fetched, n - 1), r, Nth(n - 1));
    }
  }

  /** Over every sequence of commands, whatever each asks for. */
  lemma {:induction false} LoadsInOrder(db: Store, commands: seq<Command>)
    requires Inv(db) && Ordered(db.loads)
    ensures Ordered(Replay(db, commands).loads)
    decreases |commands|
  {
    if commands != [] {
      var c := commands[0];
      StepsInv(db, c.request, STEPS);
      StepsOrdered(db, c.request, STEPS);
      LoadsInOrder(Attempt(db, c.request, c.committed), commands[1..]);
    }
  }

  /* ---- what a request gets ---- */

  /** Loading this section, if it is, registers x. */
  predicate Brings(db: Store, r: Request, s: Section, x: Section) {
    Needs(r, s) && s !in db.fetched && x in Registers(r, s)
  }

  lemma {:induction false} StepsFetched(db: Store, r: Request, n: nat, x: Section)
    requires n <= STEPS
    ensures x in Steps(db, r, db.fetched, n).fetched <==>
            x in db.fetched || exists k :: 0 <= k < n && Brings(db, r, Nth(k), x)
  {
    if n > 0 {
      StepsFetched(db, r, n - 1, x);
    }
  }

  lemma SixSteps(db: Store, r: Request, x: Section)
    ensures x in Steps(db, r, db.fetched, STEPS).fetched <==>
            || x in db.fetched
            || Brings(db, r, DatabaseProperties, x) || Brings(db, r, Namespaces, x) || Brings(db, r, TableData, x)
            || Brings(db, r, Indexes, x) || Brings(db, r, FkConstraints, x) || Brings(db, r, SetSequences, x)
  {
    StepsFetched(db, r, STEPS, x);
    forall s | Cached(s) && Brings(db, r, s, x)
      ensures exists k :: 0 <= k < STEPS && Brings(db, r, Nth(k), x)
    {
      assert Nth(Position(s)) == s;
    }
  }

  /** The parts of the tables are computed with the tables, when splitting. */
  function Parts(db: Store, r: Request): set<Section> {
    if r.split && TableData !in db.fetched then {TableDataParts} else {}
  }

  /** A committed fetch, section by section of the request: what it adds to the
      sections that are there, and it adds no more. */
  lemma FetchedExactly(db: Store, r: Request)
    requires Inv(db) && FetchCatalogs(db, r)
    ensures Attempt(db, r, true).fetched == db.fetched +
            match r.section
            case AllSections =>
              {Namespaces, TableData, Indexes, Constraints, SetSequences} + Parts(db, r)
              + (if r.skipProperties then {} else {DatabaseProperties})
              + (if r.fkJobs > 0 then {FkConstraints} else {})
            case DatabaseProperties => if r.skipProperties then {} else {DatabaseProperties}
            case Namespaces => {Namespaces}
            case TableData => {Namespaces, TableData} + Parts(db, r)
            case TableDataParts => {Namespaces, TableData} + Parts(db, r)
            case Indexes => {Namespaces, Indexes, Constraints}
            case Constraints => {Namespaces, Indexes, Constraints}
            case FkConstraints => {Namespaces, TableData, FkConstraints} + Parts(db, r)
            case SetSequences => {Namespaces, SetSequences}
  {
    forall x {
      SixSteps(db, r, x);
    }
  }
}
