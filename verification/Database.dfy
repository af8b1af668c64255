/** The state database over a run of blocks.

    Transactions push their deltas one at a time, interleaved at the
    granularity of single atomic operations on the objects; each then commits
    all of them or gives all of them back. A block ends by folding or by
    rewinding the objects its transactions logged. Every run is a sequence of
    `Action`s; an action whose guard fails changes nothing. */
module Database {
  import opened StorageTypes
  import opened Objects
  import opened ObjectInvariant
  import opened Folds
  import opened ObjectRounds

  datatype TxPhase = Pushing | Committing | Aborting | Succeeded | Failed

  /** `at[p]` is the client that carries write `p`. `loaded` are keys the
      transaction's storage proxy loaded without modifying them. */
  datatype Tx = Tx(id: nat, writes: seq<(Key, Delta)>, loaded: set<Key>, at: seq<nat>, phase: TxPhase)

  /** `main` is the committed trie, `cache` the new-key cache of this block. */
  datatype Db = Db(
    main: map<Key, Obj>, cache: map<Key, Obj>,
    clients: seq<Client>, txs: seq<Tx>, modified: set<Key>, block: nat)

  datatype Action =
    | Submit(id: nat, writes: seq<(Key, Delta)>, loaded: set<Key>)
    | Push(tx: nat)                   // start reserving the next delta
    | Advance(tx: nat)                // one atomic operation of that reservation
    | Abandon(tx: nat)                // a delta was refused
    | Decide(tx: nat, accepted: bool) // all deltas reserved: past the threshold or not
    | Work(tx: nat, position: nat)    // one atomic operation of committing or reverting
    | Conclude(tx: nat)
    | FinishBlock(listings: map<Key, seq<Entry>>)
    | UndoBlock

  function ObjectAt(db: Db, k: Key): Obj {
    if k in db.main then db.main[k] else if k in db.cache then db.cache[k] else Fresh(None)
  }

  function WithObject(db: Db, k: Key, o: Obj): Db {
    if k in db.main then db.(main := db.main[k := o]) else db.(cache := db.cache[k := o])
  }

  /** What a reader of the committed state sees. */
  function Value(db: Db, k: Key): Option<StorageObject> {
    if k in db.main then db.main[k].base else None
  }

  predicate Settled(c: Client) { c.phase.Reserved? || c.phase.Refused? }

  predicate LastIs(db: Db, tx: Tx, reserved: bool) {
    tx.at != [] && tx.at[|tx.at| - 1] < |db.clients| &&
    var c := db.clients[tx.at[|tx.at| - 1]];
    if reserved then c.phase.Reserved? else c.phase.Refused?
  }

  function SetPhase(db: Db, j: nat, phase: TxPhase): Db
    requires j < |db.txs|
  {
    db.(txs := db.txs[j := db.txs[j].(phase := phase)])
  }

  function PushWrite(db: Db, j: nat): Db
    requires j < |db.txs| && |db.txs[j].at| < |db.txs[j].writes|
  {
    var tx := db.txs[j];
    var (k, d) := tx.writes[|tx.at|];
    WithObject(db, k, ObjectAt(db, k)).(
      clients := db.clients + [Client(k, j, d, false, Trying)],
      txs := db.txs[j := tx.(at := tx.at + [|db.clients|])])
  }

  /** One atomic operation of client `i` on its object. */
  function ClientStep(db: Db, i: nat, choice: Choice): Db
    requires i < |db.clients|
  {
    var c := db.clients[i];
    var (o, c2) := Next(ObjectAt(db, c.key), c, choice);
    WithObject(db, c.key, o).(clients := db.clients[i := c2])
  }

  predicate AllAre(db: Db, tx: Tx, committed: bool) {
    forall p :: 0 <= p < |tx.at| ==>
      tx.at[p] < |db.clients| &&
      var c := db.clients[tx.at[p]];
      if committed then c.phase.Committed? else c.phase.Reverted? || c.phase.Refused?
  }

  function WrittenKeys(tx: Tx): set<Key> { set w | w in tx.writes :: w.0 }

  function ConcludeTx(db: Db, j: nat): Db
    requires j < |db.txs|
  {
    var tx := db.txs[j];
    if tx.phase.Committing? && AllAre(db, tx, true) then
      SetPhase(db, j, Succeeded).(modified := db.modified + WrittenKeys(tx) + tx.loaded)
    else if tx.phase.Aborting? && AllAre(db, tx, false) then SetPhase(db, j, Failed)
    else db
  }

  predicate AllConcluded(db: Db) {
    forall j :: 0 <= j < |db.txs| ==> db.txs[j].phase.Succeeded? || db.txs[j].phase.Failed?
  }

  predicate ListsTables(db: Db, listings: map<Key, seq<Entry>>) {
    forall k :: k in db.modified && (k in db.main || k in db.cache) ==>
      k in listings && Lists(listings[k], ObjectAt(db, k).table.contents)
  }

  function Listing(listings: map<Key, seq<Entry>>, k: Key): seq<Entry> {
    if k in listings then listings[k] else []
  }

  /** Commits a logged object; a value that is gone leaves no node. */
  function FinishedMain(db: Db, listings: map<Key, seq<Entry>>): map<Key, Obj> {
    map k | k in db.main.Keys + db.cache.Keys &&
            (if k in db.modified then CommitRound(ObjectAt(db, k), Listing(listings, k)).base.Some? else k in db.main)
      :: if k !in db.modified then ObjectAt(db, k)
         else if k in db.main then CommitRound(db.main[k], Listing(listings, k))
         else Fresh(CommitRound(db.cache[k], Listing(listings, k)).base)
  }

  function RewoundMain(db: Db): map<Key, Obj> {
    map k | k in db.main :: if k in db.modified then RewindRound(db.main[k]) else db.main[k]
  }

  function NextBlock(db: Db, main: map<Key, Obj>): Db {
    Db(main, map[], [], [], {}, db.block + 1)
  }

  function Apply(db: Db, a: Action): Db {
    match a
    case Submit(id, writes, loaded) => db.(txs := db.txs + [Tx(id, writes, loaded, [], Pushing)])
    case Push(j) =>
      if j < |db.txs| && db.txs[j].phase.Pushing? && |db.txs[j].at| < |db.txs[j].writes|
         && (db.txs[j].at == [] || LastIs(db, db.txs[j], true)) && |db.clients| < MAX_DELTAS
      then PushWrite(db, j) else db
    case Advance(j) =>
      if j < |db.txs| && db.txs[j].phase.Pushing? && db.txs[j].at != []
         && db.txs[j].at[|db.txs[j].at| - 1] < |db.clients|
         && !Settled(db.clients[db.txs[j].at[|db.txs[j].at| - 1]])
      then ClientStep(db, db.txs[j].at[|db.txs[j].at| - 1], Commit) else db
    case Abandon(j) =>
      if j < |db.txs| && db.txs[j].phase.Pushing? && LastIs(db, db.txs[j], false)
      then SetPhase(db, j, Aborting) else db
    case Decide(j, accepted) =>
      if j < |db.txs| && db.txs[j].phase.Pushing? && |db.txs[j].at| == |db.txs[j].writes|
         && (db.txs[j].at == [] || LastIs(db, db.txs[j], true))
      then SetPhase(db, j, if accepted then Committing else Aborting) else db
    case Work(j, p) =>
      if j < |db.txs| && p < |db.txs[j].at| && db.txs[j].at[p] < |db.clients|
         && (db.txs[j].phase.Committing? || db.txs[j].phase.Aborting?)
      then ClientStep(db, db.txs[j].at[p], if db.txs[j].phase.Committing? then Commit else Revert) else db
    case Conclude(j) => if j < |db.txs| then ConcludeTx(db, j) else db
    case FinishBlock(listings) =>
      if AllConcluded(db) && ListsTables(db, listings) then NextBlock(db, FinishedMain(db, listings)) else db
    case UndoBlock => if AllConcluded(db) then NextBlock(db, RewoundMain(db)) else db
  }

  function Execute(db: Db, actions: seq<Action>): Db
    decreases |actions|
  {
    if actions == [] then db else Execute(Apply(db, actions[0]), actions[1..])
  }

  const GENESIS := Db(map[], map[], [], [], {}, 0)

  // ---- the invariant ----

  /** The object of a key accounts for its clients; only stored keys have a value. */
  ghost predicate KeyOk(db: Db, k: Key) {
    var o := ObjectAt(db, k);
    && Inv(k, o, db.clients) && ValidBase(o.base)
    && (k in db.main <==> o.base.Some?)
  }

  ghost predicate ObjectsOk(db: Db) {
    && (forall k :: KeyOk(db, k))
    && (forall k :: k in db.cache ==> k !in db.main)
    && (forall i :: 0 <= i < |db.clients| ==> db.clients[i].key in db.main || db.clients[i].key in db.cache)
  }

  predicate Carries(db: Db, j: int, p: int, i: int) {
    && 0 <= j < |db.txs| && 0 <= p < |db.txs[j].at| && 0 <= i < |db.clients| && db.txs[j].at[p] == i
    && p < |db.txs[j].writes| && db.clients[i].owner == j
    && db.txs[j].writes[p] == (db.clients[i].key, db.clients[i].delta)
  }

  ghost predicate HasWrite(db: Db, i: int) {
    0 <= i < |db.clients| && exists p :: Carries(db, db.clients[i].owner, p, i)
  }

  /** Every pushed write has its client and every client its write. */
  ghost predicate LinksOk(db: Db) {
    && (forall j, p :: 0 <= j < |db.txs| && 0 <= p < |db.txs[j].at| ==> Carries(db, j, p, db.txs[j].at[p]))
    && (forall i :: 0 <= i < |db.clients| ==> HasWrite(db, i))
    && (forall j :: 0 <= j < |db.txs| && db.txs[j].phase.Succeeded? ==> |db.txs[j].at| == |db.txs[j].writes|)
    && (forall j :: 0 <= j < |db.txs| && db.txs[j].phase.Committing? ==> |db.txs[j].at| == |db.txs[j].writes|)
  }

  predicate PhaseFits(t: TxPhase, c: Client) {
    match t
    case Pushing =>
      c.phase.Trying? || c.phase.SlotHeld? || c.phase.Counted? || c.phase.Overflowed? || c.phase.Releasing?
      || c.phase.Refused? || c.phase.Reserved?
    case Committing => IsCounted(c)
    case Aborting =>
      c.phase.Reserved? || c.phase.RevertMid? || c.phase.RevertSlot? || c.phase.Reverted? || c.phase.Refused?
    case Succeeded => c.phase.Committed?
    case Failed => c.phase.Reverted? || c.phase.Refused?
  }

  ghost predicate PhasesOk(db: Db) {
    && (forall i :: 0 <= i < |db.clients| ==>
          db.clients[i].owner < |db.txs| && PhaseFits(db.txs[db.clients[i].owner].phase, db.clients[i]))
    && (forall j, p :: 0 <= j < |db.txs| && db.txs[j].phase.Pushing? && 0 <= p < |db.txs[j].at| - 1 ==>
          db.txs[j].at[p] < |db.clients| && db.clients[db.txs[j].at[p]].phase.Reserved?)
  }

  ghost predicate LoggedOk(db: Db) {
    forall j :: 0 <= j < |db.txs| && db.txs[j].phase.Succeeded? ==> WrittenKeys(db.txs[j]) <= db.modified
  }

  ghost predicate DbInv(db: Db) {
    ObjectsOk(db) && LinksOk(db) && PhasesOk(db) && LoggedOk(db) && |db.clients| <= MAX_DELTAS
  }
}
