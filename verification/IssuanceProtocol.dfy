/**
 * Concurrent issuance of one-time credentials, statement by statement.
 *
 * Under READ COMMITTED the retire-then-insert transaction is not atomic: each statement sees
 * the rows committed when it starts, and its own writes stay invisible until commit. The
 * retiring UPDATE takes its snapshot in one step (`Scan`) and updates in another: it may wait
 * for rows other transactions hold, then re-checks them, but never sees rows committed since
 * its scan. Three call sites run this transaction with different protection:
 *
 *   password reset        locks the user row first                    (ownerLock)
 *   pending registration  takes an advisory lock, plus a partial      (ownerLock, openIndex)
 *                         unique index on open rows
 *   email verification    takes neither
 *
 * The model lets any number of such transactions interleave with completions and with the
 * retention sweep, and shows that the one-open-generation rule holds in every run exactly
 * when a call site has at least one of the two protections.
 */
module IssuanceProtocol {
  import opened Kernel
  import opened Generations

  datatype Guard = Guard(ownerLock: bool, openIndex: bool)

  const RESET_GUARD := Guard(true, false)
  const REGISTRATION_GUARD := Guard(true, true)
  const VERIFICATION_GUARD := Guard(false, false)

  type Row = Generation<nat, nat>
  type Table = map<Id, Row>

  /** A transaction in flight. `retired` and `row` are its uncommitted writes. */
  datatype Tx =
    | Begun(owner: nat)
    | Locked(owner: nat)
    | Scanned(owner: nat, seen: set<Id>)
    | Retired(owner: nat, retired: set<Id>, now: Time)
    | Inserted(owner: nat, retired: set<Id>, now: Time, id: Id, row: Row)

  /** Committed rows, the holders of the owner locks, and the transactions in flight. */
  datatype State = State(table: Table, locks: map<nat, nat>, txs: map<nat, Tx>)

  datatype Step =
    | Begin(tx: nat, owner: nat)
    | Lock(tx: nat)
    | Scan(tx: nat)
    | RetireOpen(tx: nat, now: Time)
    | Insert(tx: nat, id: Id, row: Row)
    | Commit(tx: nat)
    | Abort(tx: nat)
    | Complete(id: Id, now: Time)
    | Sweep(ids: set<Id>)

  /** Rows an uncommitted UPDATE of some transaction has locked. */
  function Held(t: Tx): set<Id> {
    if t.Retired? || t.Inserted? then t.retired else {}
  }

  ghost predicate NotHeld(s: State, ids: set<Id>) {
    forall x :: x in s.txs ==> Held(s.txs[x]) !! ids
  }

  /** No other transaction has an uncommitted row that the unique key or the open index would clash with. */
  ghost predicate InsertNotBlocked(g: Guard, s: State, tx: nat, id: Id, row: Row) {
    forall x :: x in s.txs && x != tx && s.txs[x].Inserted? ==>
      && s.txs[x].id != id
      && s.txs[x].row.tokenHash != row.tokenHash
      && (g.openIndex ==> s.txs[x].owner != row.owner)
  }

  /** When the database lets a step proceed. A step that is not enabled waits. */
  ghost predicate Enabled(g: Guard, s: State, step: Step) {
    match step
    case Begin(tx, _) => tx !in s.txs
    case Lock(tx) => tx in s.txs && s.txs[tx].Begun? && g.ownerLock && s.txs[tx].owner !in s.locks
    case Scan(tx) => tx in s.txs && (if g.ownerLock then s.txs[tx].Locked? else s.txs[tx].Begun?)
    case RetireOpen(tx, _) => tx in s.txs && s.txs[tx].Scanned? && NotHeld(s, s.txs[tx].seen)
    case Insert(tx, id, row) =>
      && tx in s.txs && s.txs[tx].Retired? && row.owner == s.txs[tx].owner && row.Open()
      && InsertNotBlocked(g, s, tx, id, row)
    case Commit(tx) => tx in s.txs && s.txs[tx].Inserted?
    case Abort(tx) => tx in s.txs
    case Complete(id, _) =>
      && id in s.table && s.table[id].Open()
      && NotHeld(s, OpenIds(s.table, s.table[id].owner))
    case Sweep(ids) => NotHeld(s, ids)
  }

  /** A transaction ends: its locks go with it. */
  function End(s: State, tx: nat): State {
    State(s.table, map o | o in s.locks && s.locks[o] != tx :: s.locks[o], s.txs - {tx})
  }

  /** Whether the database refuses the insert, given the rows committed by then. */
  predicate InsertViolates(g: Guard, s: State, retired: set<Id>, id: Id, row: Row) {
    || id in s.table
    || !HashFree(s.table, row.tokenHash)
    || (g.openIndex && exists x :: x in OpenIds(s.table, row.owner) && x !in retired)
  }

  ghost function Next(g: Guard, s: State, step: Step): State
    requires Enabled(g, s, step)
  {
    match step
    case Begin(tx, owner) => s.(txs := s.txs[tx := Begun(owner)])
    case Lock(tx) =>
      var owner := s.txs[tx].owner;
      State(s.table, s.locks[owner := tx], s.txs[tx := Locked(owner)])
    case Scan(tx) =>
      var owner := s.txs[tx].owner;
      s.(txs := s.txs[tx := Scanned(owner, OpenIds(s.table, owner))])
    case RetireOpen(tx, now) =>
      var owner := s.txs[tx].owner;
      s.(txs := s.txs[tx := Retired(owner, s.txs[tx].seen * OpenIds(s.table, owner), now)])
    case Insert(tx, id, row) =>
      var t := s.txs[tx];
      if InsertViolates(g, s, t.retired, id, row) then End(s, tx)
      else s.(txs := s.txs[tx := Inserted(t.owner, t.retired, t.now, id, row)])
    case Commit(tx) =>
      var t := s.txs[tx];
      End(s.(table := Retire(s.table, t.retired, t.now)[t.id := t.row]), tx)
    case Abort(tx) => End(s, tx)
    case Complete(id, now) => s.(table := Settle(s.table, id, now))
    case Sweep(ids) => s.(table := s.table - ids)
  }

  ghost predicate Legal(g: Guard, s: State, steps: seq<Step>)
    decreases |steps|
  {
    steps == [] || (Enabled(g, s, steps[0]) && Legal(g, Next(g, s, steps[0]), steps[1..]))
  }

  ghost function Run(g: Guard, s: State, steps: seq<Step>): State
    requires Legal(g, s, steps)
    decreases |steps|
  {
    if steps == [] then s else Run(g, Next(g, s, steps[0]), steps[1..])
  }

  const EMPTY := State(map[], map[], map[])

  /** An owner lock has one holder, and every transaction past `Begun` holds the lock of its owner. */
  ghost predicate LocksOk(g: Guard, s: State) {
    g.ownerLock ==> forall x :: x in s.txs && !s.txs[x].Begun? ==>
      s.txs[x].owner in s.locks && s.locks[s.txs[x].owner] == x
  }

  /** With the open index, at most one uncommitted insert per owner. */
  ghost predicate InsertsOk(g: Guard, s: State) {
    g.openIndex ==>
      forall x, y ::
        && x in s.txs && y in s.txs && s.txs[x].Inserted? && s.txs[y].Inserted?
        && s.txs[x].owner == s.txs[y].owner
        ==> x == y
  }

  /** The rows a transaction has retired are committed rows of its owner that are still open. */
  ghost predicate RetiredOk(s: State) {
    forall x :: x in s.txs ==> Held(s.txs[x]) <= OpenIds(s.table, s.txs[x].owner)
  }

  /** The rows a transaction has seen or retired. */
  function Covered(t: Tx): set<Id> {
    match t
    case Scanned(_, seen) => seen
    case Retired(_, retired, _) => retired
    case Inserted(_, retired, _, _, _) => retired
    case _ => {}
  }

  /** The transaction must cover its owner's open rows: it has inserted, or its lock kept others out since its scan. */
  predicate MustCover(g: Guard, t: Tx) {
    t.Inserted? || (g.ownerLock && (t.Scanned? || t.Retired?))
  }

  /** A transaction that is certain to commit has retired every committed open row of its owner. */
  ghost predicate CommitsOk(g: Guard, s: State) {
    forall x :: x in s.txs && MustCover(g, s.txs[x]) ==> OpenIds(s.table, s.txs[x].owner) <= Covered(s.txs[x])
  }

  /** An uncommitted row carries the owner, the null marks and a free id and hash. */
  ghost predicate RowsOk(s: State) {
    forall x :: x in s.txs && s.txs[x].Inserted? ==>
      && s.txs[x].row.owner == s.txs[x].owner && s.txs[x].row.Open()
      && s.txs[x].id !in s.table && HashFree(s.table, s.txs[x].row.tokenHash)
  }

  /** Uncommitted rows of different transactions clash in neither id nor hash. */
  ghost predicate DistinctOk(s: State) {
    forall x, y :: x in s.txs && y in s.txs && x != y && s.txs[x].Inserted? && s.txs[y].Inserted? ==>
      s.txs[x].id != s.txs[y].id && s.txs[x].row.tokenHash != s.txs[y].row.tokenHash
  }

  /** An open row is locked by at most one transaction. */
  ghost predicate HeldOk(s: State) {
    forall x, y :: x in s.txs && y in s.txs && x != y ==> Held(s.txs[x]) !! Held(s.txs[y])
  }

  ghost predicate Inv(g: Guard, s: State) {
    && LocksOk(g, s) && InsertsOk(g, s) && RetiredOk(s) && CommitsOk(g, s) && RowsOk(s) && DistinctOk(s)
    && HeldOk(s) && UniqueHashes(s.table) && AtMostOneOpen(s.table)
  }

  predicate Protected(g: Guard) {
    g.ownerLock || g.openIndex
  }

  /** Ending a transaction without touching the table keeps everything. */
  lemma EndKeepsInv(g: Guard, s: State, tx: nat)
    requires Inv(g, s)
    ensures Inv(g, End(s, tx))
  {
    var e := End(s, tx);
    forall x | x in e.txs ensures x in s.txs && e.txs[x] == s.txs[x] {}
  }

  /** At commit the retired rows are exactly the owner's open rows. */
  lemma CommitRetiresExactly(g: Guard, s: State, tx: nat)
    requires Inv(g, s) && tx in s.txs && s.txs[tx].Inserted?
    ensures s.txs[tx].retired == OpenIds(s.table, s.txs[tx].owner)
  {
  }

  /**
   * Refinement: whatever interleaved before it, a commit changes the committed table exactly as
   * the one-step operation would have, had the whole transaction run at the instant of its commit.
   */
  lemma CommitIsAtomicIssue(g: Guard, s: State, tx: nat)
    requires Inv(g, s) && Enabled(g, s, Commit(tx))
    ensures var t := s.txs[tx];
            Issue(s.table, t.id, t.row, t.now) == Some(Next(g, s, Commit(tx)).table)
  {
    CommitRetiresExactly(g, s, tx);
  }

  /** While a transaction is about to commit, no other one of its owner holds rows or is about to. */
  lemma CommitsAlone(g: Guard, s: State, tx: nat, x: nat)
    requires Inv(g, s) && Protected(g)
    requires tx in s.txs && s.txs[tx].Inserted?
    requires x in s.txs && x != tx && s.txs[x].owner == s.txs[tx].owner
    ensures !MustCover(g, s.txs[x]) && Held(s.txs[x]) == {}
  {
    CommitRetiresExactly(g, s, tx);
    assert Held(s.txs[x]) <= OpenIds(s.table, s.txs[x].owner);
    assert Held(s.txs[x]) !! Held(s.txs[tx]);
  }

  /** What a commit leaves every other transaction with. */
  ghost predicate Spared(g: Guard, table: Table, t: Tx) {
    && Held(t) <= OpenIds(table, t.owner)
    && (MustCover(g, t) ==> OpenIds(table, t.owner) <= Covered(t))
    && (t.Inserted? ==> t.id !in table && HashFree(table, t.row.tokenHash))
  }

  /** A transaction of the same owner has nothing to lose. */
  lemma CommitSparesSiblings(g: Guard, s: State, tx: nat, x: nat)
    requires Inv(g, s) && Protected(g) && tx in s.txs && s.txs[tx].Inserted?
    requires x in s.txs && x != tx && s.txs[x].owner == s.txs[tx].owner
    ensures forall table :: Spared(g, table, s.txs[x])
  {
    CommitsAlone(g, s, tx, x);
  }

  /** A transaction of another owner keeps its open rows, and its uncommitted row stays free. */
  lemma CommitSparesStrangers(g: Guard, s: State, t: Tx, tx: nat, x: nat, after: Table)
    requires x in s.txs && tx in s.txs && x != tx && s.txs[tx] == t && t.Inserted? && s.txs[x].owner != t.owner
    requires Spared(g, s.table, s.txs[x]) && DistinctOk(s)
    requires after.Keys == s.table.Keys + {t.id} && after[t.id] == t.row
    requires OpenIds(after, s.txs[x].owner) == OpenIds(s.table, s.txs[x].owner)
    requires forall y :: y in s.table ==> after[y].tokenHash == s.table[y].tokenHash
    ensures Spared(g, after, s.txs[x])
  {
  }

  lemma CommitSparesOthers(g: Guard, s: State, tx: nat, x: nat)
    requires Inv(g, s) && Protected(g) && Enabled(g, s, Commit(tx))
    requires x in s.txs && x != tx
    ensures Spared(g, Next(g, s, Commit(tx)).table, s.txs[x])
  {
    var t := s.txs[tx];
    var after := Next(g, s, Commit(tx)).table;
    if s.txs[x].owner == t.owner {
      CommitSparesSiblings(g, s, tx, x);
    } else {
      CommitIsAtomicIssue(g, s, tx);
      IssueLeavesOneOpen(s.table, t.id, t.row, t.now);
      CommitSparesStrangers(g, s, t, tx, x, after);
    }
  }

  lemma CommitKeepsInv(g: Guard, s: State, tx: nat)
    requires Inv(g, s) && Protected(g) && Enabled(g, s, Commit(tx))
    ensures Inv(g, Next(g, s, Commit(tx)))
  {
    var t := s.txs[tx];
    var n := Next(g, s, Commit(tx));
    assert UniqueHashes(n.table) && AtMostOneOpen(n.table) by {
      CommitIsAtomicIssue(g, s, tx);
      IssueLeavesOneOpen(s.table, t.id, t.row, t.now);
    }
    var u := End(s, tx);
    EndKeepsInv(g, s, tx);
    assert n.txs == u.txs && n.locks == u.locks;
    forall x | x in n.txs ensures Spared(g, n.table, n.txs[x]) {
      CommitSparesOthers(g, s, tx, x);
    }
  }

  /** A completion only closes rows, and only rows no transaction holds. */
  lemma CompleteKeepsInv(g: Guard, s: State, id: Id, now: Time)
    requires Inv(g, s) && Enabled(g, s, Complete(id, now))
    ensures Inv(g, Next(g, s, Complete(id, now)))
  {
    var n := Next(g, s, Complete(id, now));
    var owner := s.table[id].owner;
    SettleClosesOwner(s.table, id, now);
    forall x | x in n.txs
      ensures Held(n.txs[x]) <= OpenIds(n.table, n.txs[x].owner)
      ensures OpenIds(n.table, n.txs[x].owner) <= OpenIds(s.table, n.txs[x].owner)
    {
      forall y | y in Held(n.txs[x]) ensures y in OpenIds(n.table, n.txs[x].owner) {
        assert y in OpenIds(s.table, n.txs[x].owner);
        assert y !in OpenIds(s.table, owner);
      }
    }
  }

  lemma SweepKeepsInv(g: Guard, s: State, ids: set<Id>)
    requires Inv(g, s) && Enabled(g, s, Sweep(ids))
    ensures Inv(g, Next(g, s, Sweep(ids)))
  {
    var n := Next(g, s, Sweep(ids));
    forall x | x in n.txs
      ensures Held(n.txs[x]) <= OpenIds(n.table, n.txs[x].owner)
      ensures OpenIds(n.table, n.txs[x].owner) <= OpenIds(s.table, n.txs[x].owner)
    {
      assert Held(s.txs[x]) !! ids;
    }
  }

  /** What the new state of one transaction must satisfy beside all the others. */
  ghost predicate Joins(g: Guard, s: State, locks: map<nat, nat>, tx: nat, t: Tx) {
    && (g.ownerLock && !t.Begun? ==> t.owner in locks && locks[t.owner] == tx)
    && Held(t) <= OpenIds(s.table, t.owner)
    && (forall x :: x in s.txs && x != tx ==> Held(s.txs[x]) !! Held(t))
    && (MustCover(g, t) ==> OpenIds(s.table, t.owner) <= Covered(t))
    && (t.Inserted? ==>
          && t.row.owner == t.owner && t.row.Open() && t.id !in s.table && HashFree(s.table, t.row.tokenHash)
          && InsertNotBlocked(g, s, tx, t.id, t.row))
  }

  lemma OneMovesOnAlone(g: Guard, s: State, n: State, tx: nat, t: Tx)
    requires LocksOk(g, s) && RetiredOk(s) && CommitsOk(g, s) && RowsOk(s)
    requires n == State(s.table, n.locks, s.txs[tx := t]) && Joins(g, s, n.locks, tx, t)
    requires forall o :: o in s.locks ==> o in n.locks && n.locks[o] == s.locks[o]
    ensures LocksOk(g, n) && RetiredOk(n) && CommitsOk(g, n) && RowsOk(n)
  {
  }

  lemma OneMovesOnBesideOthers(g: Guard, s: State, n: State, tx: nat, t: Tx)
    requires InsertsOk(g, s) && RowsOk(s) && DistinctOk(s) && HeldOk(s)
    requires n == State(s.table, n.locks, s.txs[tx := t]) && Joins(g, s, n.locks, tx, t)
    ensures InsertsOk(g, n) && DistinctOk(n) && HeldOk(n)
  {
  }

  /** One transaction moves on, the committed table stays, and no lock changes hands. */
  lemma OneMovesOn(g: Guard, s: State, n: State, tx: nat, t: Tx)
    requires Inv(g, s) && n == State(s.table, n.locks, s.txs[tx := t]) && Joins(g, s, n.locks, tx, t)
    requires forall o :: o in s.locks ==> o in n.locks && n.locks[o] == s.locks[o]
    ensures Inv(g, n)
  {
    OneMovesOnAlone(g, s, n, tx, t);
    OneMovesOnBesideOthers(g, s, n, tx, t);
  }

  lemma BeginKeepsInv(g: Guard, s: State, tx: nat, owner: nat)
    requires Inv(g, s) && Enabled(g, s, Begin(tx, owner))
    ensures Inv(g, Next(g, s, Begin(tx, owner)))
  {
    OneMovesOn(g, s, Next(g, s, Begin(tx, owner)), tx, Begun(owner));
  }

  lemma InsertKeepsInv(g: Guard, s: State, tx: nat, id: Id, row: Row)
    requires Inv(g, s) && Protected(g) && Enabled(g, s, Insert(tx, id, row))
    ensures Inv(g, Next(g, s, Insert(tx, id, row)))
  {
    var t := s.txs[tx];
    if InsertViolates(g, s, t.retired, id, row) {
      EndKeepsInv(g, s, tx);
    } else {
      assert OpenIds(s.table, t.owner) <= t.retired;
      var after := Inserted(t.owner, t.retired, t.now, id, row);
      assert Held(after) == Held(t);
      OneMovesOn(g, s, Next(g, s, Insert(tx, id, row)), tx, after);
    }
  }

  lemma LockKeepsInv(g: Guard, s: State, tx: nat)
    requires Inv(g, s) && Enabled(g, s, Lock(tx))
    ensures Inv(g, Next(g, s, Lock(tx)))
  {
    OneMovesOn(g, s, Next(g, s, Lock(tx)), tx, Locked(s.txs[tx].owner));
  }

  lemma ScanKeepsInv(g: Guard, s: State, tx: nat)
    requires Inv(g, s) && Enabled(g, s, Scan(tx))
    ensures Inv(g, Next(g, s, Scan(tx)))
  {
    OneMovesOn(g, s, Next(g, s, Scan(tx)), tx, Scanned(s.txs[tx].owner, OpenIds(s.table, s.txs[tx].owner)));
  }

  lemma RetireKeepsInv(g: Guard, s: State, tx: nat, now: Time)
    requires Inv(g, s) && Enabled(g, s, RetireOpen(tx, now))
    ensures Inv(g, Next(g, s, RetireOpen(tx, now)))
  {
    var t := s.txs[tx];
    var after := Retired(t.owner, t.seen * OpenIds(s.table, t.owner), now);
    assert g.ownerLock ==> OpenIds(s.table, t.owner) <= t.seen by {
      assert g.ownerLock ==> MustCover(g, t);
    }
    OneMovesOn(g, s, Next(g, s, RetireOpen(tx, now)), tx, after);
  }

  /** Every step keeps the invariant, provided the call site has one of the two protections. */
  lemma StepKeepsInv(g: Guard, s: State, step: Step)
    requires Inv(g, s) && Protected(g) && Enabled(g, s, step)
    ensures Inv(g, Next(g, s, step))
  {
    match step
    case Begin(tx, owner) => BeginKeepsInv(g, s, tx, owner);
    case Lock(tx) => LockKeepsInv(g, s, tx);
    case Scan(tx) => ScanKeepsInv(g, s, tx);
    case RetireOpen(tx, now) => RetireKeepsInv(g, s, tx, now);
    case Insert(tx, id, row) => InsertKeepsInv(g, s, tx, id, row);
    case Commit(tx) => CommitKeepsInv(g, s, tx);
    case Abort(tx) => EndKeepsInv(g, s, tx);
    case Complete(id, now) => CompleteKeepsInv(g, s, id, now);
    case Sweep(ids) => SweepKeepsInv(g, s, ids);
  }

  lemma {:induction false} RunKeepsInv(g: Guard, s: State, steps: seq<Step>)
    requires Inv(g, s) && Protected(g) && Legal(g, s, steps)
    ensures Inv(g, Run(g, s, steps))
    decreases |steps|
  {
    if steps != [] {
      StepKeepsInv(g, s, steps[0]);
      RunKeepsInv(g, Next(g, s, steps[0]), steps[1..]);
    }
  }

  /** Two resends racing on an account without an open token: both retire nothing, both insert, both commit. */
  const RACE: seq<Step> := [
    Begin(1, 7), Begin(2, 7),
    Scan(1), Scan(2),
    RetireOpen(1, 0), RetireOpen(2, 0),
    Insert(1, 11, ROW1), Insert(2, 12, ROW2),
    Commit(1), Commit(2)]

  /** Prefixing a legal run with an enabled step. */
  lemma Prefix(g: Guard, s: State, steps: seq<Step>, i: nat, final: State)
    requires i < |steps| && Enabled(g, s, steps[i])
    requires Legal(g, Next(g, s, steps[i]), steps[i + 1..]) && Run(g, Next(g, s, steps[i]), steps[i + 1..]) == final
    ensures Legal(g, s, steps[i..]) && Run(g, s, steps[i..]) == final
  {
    assert steps[i..][1..] == steps[i + 1..];
  }

  const ROW1: Row := NewRow(7, 0, 101, 900)
  const ROW2: Row := NewRow(7, 0, 102, 900)

  /** The states the race passes through. */
  function RaceState(k: nat): State
    requires k <= 10
  {
    if k == 0 then EMPTY
    else if k == 1 then State(map[], map[], map[1 := Begun(7)])
    else if k == 2 then State(map[], map[], map[1 := Begun(7), 2 := Begun(7)])
    else if k == 3 then State(map[], map[], map[1 := Scanned(7, {}), 2 := Begun(7)])
    else if k == 4 then State(map[], map[], map[1 := Scanned(7, {}), 2 := Scanned(7, {})])
    else if k == 5 then State(map[], map[], map[1 := Retired(7, {}, 0), 2 := Scanned(7, {})])
    else if k == 6 then State(map[], map[], map[1 := Retired(7, {}, 0), 2 := Retired(7, {}, 0)])
    else if k == 7 then State(map[], map[], map[1 := Inserted(7, {}, 0, 11, ROW1), 2 := Retired(7, {}, 0)])
    else if k == 8 then State(map[], map[], map[1 := Inserted(7, {}, 0, 11, ROW1), 2 := Inserted(7, {}, 0, 12, ROW2)])
    else if k == 9 then State(map[11 := ROW1], map[], map[2 := Inserted(7, {}, 0, 12, ROW2)])
    else State(map[11 := ROW1, 12 := ROW2], map[], map[])
  }

  lemma RaceEnabled(g: Guard, k: nat)
    requires !Protected(g) && k < 10
    ensures Enabled(g, RaceState(k), RACE[k])
  {
  }

  lemma RaceStep(g: Guard, k: nat)
    requires !Protected(g) && k < 10
    ensures Enabled(g, RaceState(k), RACE[k])
    ensures Next(g, RaceState(k), RACE[k]) == RaceState(k + 1)
  {
    RaceEnabled(g, k);
    var s := RaceState(k);
    assert k <= 8 ==> OpenIds(s.table, 7) == {};
    var none: set<Id> := {};
    assert none * OpenIds(s.table, 7) == {};
    var n := Next(g, s, RACE[k]);
    var r := RaceState(k + 1);
    assert n.table == r.table;
    assert n.locks == r.locks;
    assert n.txs == r.txs;
  }

  lemma {:induction false} RaceRuns(g: Guard, k: nat)
    requires !Protected(g) && k <= 10
    ensures Legal(g, RaceState(k), RACE[k..]) && Run(g, RaceState(k), RACE[k..]) == RaceState(10)
    decreases 10 - k
  {
    if k < 10 {
      RaceStep(g, k);
      RaceRuns(g, k + 1);
      Prefix(g, RaceState(k), RACE, k, RaceState(10));
    }
  }

  /** Without either protection a reachable committed state has two open generations of one owner. */
  lemma UnprotectedRace(g: Guard)
    requires !Protected(g)
    ensures Legal(g, EMPTY, RACE)
    ensures !AtMostOneOpen(Run(g, EMPTY, RACE).table)
  {
    RaceRuns(g, 0);
    assert RACE[0..] == RACE;
    var t := RaceState(10).table;
    assert 11 in t && 12 in t && t[11].Open() && t[12].Open() && t[11].owner == t[12].owner;
  }

  /**
   * The one-open-generation rule, over every run from an empty table: it is guaranteed exactly
   * when the call site takes the owner lock or has the partial unique index.
   */
  lemma OneOpenIffProtected(g: Guard)
    ensures Protected(g) <==> forall steps :: Legal(g, EMPTY, steps) ==> AtMostOneOpen(Run(g, EMPTY, steps).table)
  {
    if Protected(g) {
      forall steps | Legal(g, EMPTY, steps) ensures AtMostOneOpen(Run(g, EMPTY, steps).table) {
        RunKeepsInv(g, EMPTY, steps);
      }
    } else {
      UnprotectedRace(g);
    }
  }

  /** The three call sites: password reset and pending registration always keep the rule, email verification does not. */
  lemma CallSites()
    ensures forall steps :: Legal(RESET_GUARD, EMPTY, steps) ==> AtMostOneOpen(Run(RESET_GUARD, EMPTY, steps).table)
    ensures forall steps :: Legal(REGISTRATION_GUARD, EMPTY, steps) ==> AtMostOneOpen(Run(REGISTRATION_GUARD, EMPTY, steps).table)
    ensures exists steps :: Legal(VERIFICATION_GUARD, EMPTY, steps) && !AtMostOneOpen(Run(VERIFICATION_GUARD, EMPTY, steps).table)
  {
    OneOpenIffProtected(RESET_GUARD);
    OneOpenIffProtected(REGISTRATION_GUARD);
    UnprotectedRace(VERIFICATION_GUARD);
  }
}
