/** API keys, the legacy hash column and the auth cache, with every handler run to completion. */
module ApiKeyStore {
  import opened Options

  datatype KeyRow = KeyRow(workspace: string, hash: string, name: string, revoked: bool, paused: bool, creator: Option<string>)
  datatype Workspace = Workspace(plan: string, active: bool, legacy: Option<string>)
  datatype Tables = Tables(keys: map<string, KeyRow>, workspaces: map<string, Workspace>)

  /** What a lookup reads from the tables; `key` is absent when the legacy column answered. */
  datatype Found = Found(workspace: string, plan: string, key: Option<string>)
  datatype Entry = Entry(found: Found, at: int)
  type Cache = map<string, Entry>

  const TTL := 60

  // ---- the two reads of a lookup ----

  predicate Live(t: Tables, k: string, h: string) {
    k in t.keys && t.keys[k].hash == h && !t.keys[k].revoked && !t.keys[k].paused
    && t.keys[k].workspace in t.workspaces && t.workspaces[t.keys[k].workspace].active
  }

  predicate HoldsLegacy(t: Tables, w: string, h: string) {
    w in t.workspaces && t.workspaces[w].legacy == Some(h)
  }

  ghost function ReadKeys(t: Tables, h: string): Option<Found> {
    if exists k :: Live(t, k, h) then
      var k :| Live(t, k, h);
      Some(Found(t.keys[k].workspace, t.workspaces[t.keys[k].workspace].plan, Some(k)))
    else None
  }

  ghost function ReadLegacy(t: Tables, h: string): Option<Found> {
    if exists w :: HoldsLegacy(t, w, h) && t.workspaces[w].active then
      var w :| HoldsLegacy(t, w, h) && t.workspaces[w].active;
      Some(Found(w, t.workspaces[w].plan, None))
    else None
  }

  /** The uniqueness constraints leave the reads no choice. */
  lemma KeyReadIs(t: Tables, k: string, h: string)
    requires OneRowPerHash(t) && Live(t, k, h)
    ensures ReadKeys(t, h) == Some(Found(t.keys[k].workspace, t.workspaces[t.keys[k].workspace].plan, Some(k)))
  {
  }

  lemma LegacyReadIs(t: Tables, w: string, h: string)
    requires OneHolderPerHash(t) && HoldsLegacy(t, w, h) && t.workspaces[w].active
    ensures ReadLegacy(t, h) == Some(Found(w, t.workspaces[w].plan, None))
  {
  }

  ghost function ReadTables(t: Tables, h: string): Option<Found> {
    if ReadKeys(t, h).Some? then ReadKeys(t, h) else ReadLegacy(t, h)
  }

  // ---- the statements that change the tables ----

  /** The WHERE clause shared by rename, revoke, pause and resume. */
  predicate Addressed(t: Tables, k: string, w: string, viewer: Option<string>) {
    k in t.keys && t.keys[k].workspace == w && !t.keys[k].revoked && (viewer.None? || t.keys[k].creator == viewer)
  }

  function SetRow(t: Tables, k: string, row: KeyRow): Tables {
    t.(keys := t.keys[k := row])
  }

  function MarkRevoked(t: Tables, k: string, w: string, viewer: Option<string>): Tables {
    if Addressed(t, k, w, viewer) then SetRow(t, k, t.keys[k].(revoked := true)) else t
  }

  function SetPaused(t: Tables, k: string, w: string, viewer: Option<string>, paused: bool): Tables {
    if Addressed(t, k, w, viewer) then SetRow(t, k, t.keys[k].(paused := paused)) else t
  }

  function Rename(t: Tables, k: string, w: string, viewer: Option<string>, name: string): Tables {
    if Addressed(t, k, w, viewer) then SetRow(t, k, t.keys[k].(name := name)) else t
  }

  function ClearLegacy(t: Tables, w: string, h: string): Tables {
    if HoldsLegacy(t, w, h) then t.(workspaces := t.workspaces[w := t.workspaces[w].(legacy := None)]) else t
  }

  predicate HasRow(t: Tables, h: string) {
    exists k :: k in t.keys && t.keys[k].hash == h
  }

  /** No key with this hash was ever handed out: rows are never deleted and a legacy hash is only cleared once
      its row is revoked. */
  predicate Unused(t: Tables, h: string) {
    !HasRow(t, h) && (forall w :: w in t.workspaces ==> !HoldsLegacy(t, w, h))
  }

  function InsertKey(t: Tables, k: string, row: KeyRow): Tables {
    if k !in t.keys && row.workspace in t.workspaces && Unused(t, row.hash) && !row.revoked && !row.paused
    then SetRow(t, k, row) else t
  }

  function SignUp(t: Tables, w: string, h: string): Tables {
    if w !in t.workspaces && Unused(t, h) then t.(workspaces := t.workspaces[w := Workspace("free", true, Some(h))]) else t
  }

  /** The backfill's insert for one workspace. */
  function Backfill(t: Tables, w: string, k: string): Tables {
    if w in t.workspaces && t.workspaces[w].legacy.Some? && k !in t.keys && !HasRow(t, t.workspaces[w].legacy.value)
    then SetRow(t, k, KeyRow(w, t.workspaces[w].legacy.value, "Primary", false, false, None)) else t
  }

  /** Billing and administration change a workspace's plan and whether it is active. */
  function SetWorkspace(t: Tables, w: string, plan: string, active: bool): Tables {
    if w in t.workspaces then t.(workspaces := t.workspaces[w := t.workspaces[w].(plan := plan, active := active)]) else t
  }

  datatype Statement =
    | DoInsertKey(k: string, row: KeyRow)
    | DoSignUp(w: string, h: string)
    | DoBackfill(w: string, k: string)
    | DoSetWorkspace(w: string, plan: string, active: bool)
    | DoRename(k: string, w: string, viewer: Option<string>, name: string)
    | DoResume(k: string, w: string, viewer: Option<string>)
    | DoPause(k: string, w: string, viewer: Option<string>)
    | DoRevoke(k: string, w: string, viewer: Option<string>)
    | DoClearLegacy(w: string, h: string)

  function Execute(t: Tables, q: Statement): Tables {
    match q
    case DoInsertKey(k, row) => InsertKey(t, k, row)
    case DoSignUp(w, h) => SignUp(t, w, h)
    case DoBackfill(w, k) => Backfill(t, w, k)
    case DoSetWorkspace(w, plan, active) => SetWorkspace(t, w, plan, active)
    case DoRename(k, w, viewer, name) => Rename(t, k, w, viewer, name)
    case DoResume(k, w, viewer) => SetPaused(t, k, w, viewer, false)
    case DoPause(k, w, viewer) => SetPaused(t, k, w, viewer, true)
    case DoRevoke(k, w, viewer) => MarkRevoked(t, k, w, viewer)
    case DoClearLegacy(w, h) => ClearLegacy(t, w, h)
  }

  // ---- what the constraints and fresh keys give ----

  ghost predicate OneRowPerHash(t: Tables) {
    forall k, k' :: k in t.keys && k' in t.keys && t.keys[k].hash == t.keys[k'].hash ==> k == k'
  }

  ghost predicate OneHolderPerHash(t: Tables) {
    forall w, w', h :: HoldsLegacy(t, w, h) && HoldsLegacy(t, w', h) ==> w == w'
  }

  /** A key row and a legacy holder of the same hash belong to the same workspace. */
  ghost predicate OneOwner(t: Tables) {
    forall k, w :: k in t.keys && HoldsLegacy(t, w, t.keys[k].hash) ==> t.keys[k].workspace == w
  }

  ghost predicate Consistent(t: Tables) {
    OneRowPerHash(t) && OneHolderPerHash(t) && OneOwner(t)
    && forall k :: k in t.keys ==> t.keys[k].workspace in t.workspaces
  }

  /** Updating a row's flags or name touches nothing the constraints speak of. */
  lemma SetRowConsistent(t: Tables, k: string, row: KeyRow)
    requires Consistent(t) && k in t.keys && row.hash == t.keys[k].hash && row.workspace == t.keys[k].workspace
    ensures Consistent(SetRow(t, k, row))
  {
    var t' := SetRow(t, k, row);
    assert forall w, h :: HoldsLegacy(t', w, h) <==> HoldsLegacy(t, w, h);
  }

  lemma NewRowConsistent(t: Tables, k: string, row: KeyRow)
    requires Consistent(t) && k !in t.keys && !HasRow(t, row.hash) && row.workspace in t.workspaces
    requires forall w :: HoldsLegacy(t, w, row.hash) ==> w == row.workspace
    ensures Consistent(SetRow(t, k, row))
  {
    var t' := SetRow(t, k, row);
    assert forall w, h :: HoldsLegacy(t', w, h) <==> HoldsLegacy(t, w, h);
  }

  lemma SignUpConsistent(t: Tables, w: string, h: string)
    requires Consistent(t)
    ensures Consistent(SignUp(t, w, h))
  {
    var t' := SignUp(t, w, h);
    if t' != t {
      assert forall v, g :: HoldsLegacy(t', v, g) <==> HoldsLegacy(t, v, g) || (v == w && g == h);
    }
  }

  lemma WorkspaceConsistent(t: Tables, w: string, row: Workspace)
    requires Consistent(t) && w in t.workspaces && (row.legacy == t.workspaces[w].legacy || row.legacy == None)
    ensures Consistent(t.(workspaces := t.workspaces[w := row]))
  {
    var t' := t.(workspaces := t.workspaces[w := row]);
    assert forall v, g :: HoldsLegacy(t', v, g) ==> HoldsLegacy(t, v, g);
  }

  lemma ExecuteConsistent(t: Tables, q: Statement)
    requires Consistent(t)
    ensures Consistent(Execute(t, q))
  {
    if Execute(t, q) != t {
      match q
      case DoInsertKey(k, row) => NewRowConsistent(t, k, row);
      case DoSignUp(w, h) => SignUpConsistent(t, w, h);
      case DoBackfill(w, k) =>
        assert HoldsLegacy(t, w, t.workspaces[w].legacy.value);
        NewRowConsistent(t, k, Execute(t, q).keys[k]);
      case DoSetWorkspace(w, plan, active) => WorkspaceConsistent(t, w, t.workspaces[w].(plan := plan, active := active));
      case DoClearLegacy(w, h) => WorkspaceConsistent(t, w, t.workspaces[w].(legacy := None));
      case _ => SetRowConsistent(t, q.k, Execute(t, q).keys[q.k]);
    }
  }

  // ---- credentials ----

  predicate Usable(t: Tables, k: string, h: string, w: string) {
    k in t.keys && t.keys[k].hash == h && t.keys[k].workspace == w && !t.keys[k].revoked && !t.keys[k].paused
  }

  /** The hash is at this moment a credential of the workspace, by a usable key row or by the legacy column. */
  ghost predicate Vouched(t: Tables, h: string, w: string) {
    HoldsLegacy(t, w, h) || exists k :: Usable(t, k, h, w)
  }

  lemma OneWorkspaceIsVouched(t: Tables, h: string, w: string, w': string)
    requires Consistent(t) && Vouched(t, h, w) && Vouched(t, h, w')
    ensures w == w'
  {
  }

  lemma ReadsAreVouched(t: Tables, h: string)
    ensures ReadKeys(t, h).Some? ==> Vouched(t, h, ReadKeys(t, h).value.workspace)
    ensures ReadLegacy(t, h).Some? ==> Vouched(t, h, ReadLegacy(t, h).value.workspace)
  {
    if exists k :: Live(t, k, h) {
      var k :| Live(t, k, h) && ReadKeys(t, h).value.key == Some(k) && ReadKeys(t, h).value.workspace == t.keys[k].workspace;
      assert Usable(t, k, h, t.keys[k].workspace);
    }
  }

  /** Only pausing, revoking or clearing the legacy column of a hash ends its being a credential. */
  lemma VouchedUnless(t: Tables, q: Statement, h: string, w: string)
    requires Consistent(t) && Vouched(t, h, w)
    requires (q.DoPause? || q.DoRevoke?) && Addressed(t, q.k, q.w, q.viewer) ==> t.keys[q.k].hash != h
    requires q.DoClearLegacy? ==> q.h != h
    ensures Vouched(Execute(t, q), h, w)
  {
    if HoldsLegacy(t, w, h) {
      assert HoldsLegacy(Execute(t, q), w, h);
    } else {
      var k :| Usable(t, k, h, w);
      assert Usable(Execute(t, q), k, h, w);
    }
  }

  // ---- the service with atomic handlers ----

  datatype Service = Service(tables: Tables, cache: Cache)

  datatype Op =
    | Lookup(h: string, now: int)
    | Revoke(k: string, w: string, viewer: Option<string>)
    | Pause(k: string, w: string, viewer: Option<string>)
    | Other(q: Statement)

  predicate Fresh(c: Cache, h: string, now: int) {
    h in c && now - c[h].at < TTL
  }

  /** What a lookup answers: the cached entry while it is fresh, the tables otherwise. */
  ghost function Answer(s: Service, h: string, now: int): Option<Found> {
    if Fresh(s.cache, h, now) then Some(s.cache[h].found) else ReadTables(s.tables, h)
  }

  ghost function CacheAfterLookup(s: Service, h: string, now: int): Cache {
    if Fresh(s.cache, h, now) then s.cache
    else if ReadTables(s.tables, h).Some? then s.cache[h := Entry(ReadTables(s.tables, h).value, now)]
    else s.cache - {h}
  }

  function Revoked(s: Service, k: string, w: string, viewer: Option<string>): Service {
    if !Addressed(s.tables, k, w, viewer) then s
    else
      var h := s.tables.keys[k].hash;
      Service(ClearLegacy(MarkRevoked(s.tables, k, w, viewer), w, h), s.cache - {h})
  }

  function Paused(s: Service, k: string, w: string, viewer: Option<string>): Service {
    if !Addressed(s.tables, k, w, viewer) then s
    else Service(SetPaused(s.tables, k, w, viewer, true), s.cache - {s.tables.keys[k].hash})
  }

  /** Table changes that no handler above makes; they leave the cache alone. */
  predicate Plain(q: Statement) {
    !q.DoPause? && !q.DoRevoke? && !q.DoClearLegacy?
  }

  ghost function After(s: Service, op: Op): Service {
    match op
    case Lookup(h, now) => s.(cache := CacheAfterLookup(s, h, now))
    case Revoke(k, w, viewer) => Revoked(s, k, w, viewer)
    case Pause(k, w, viewer) => Paused(s, k, w, viewer)
    case Other(q) => if Plain(q) then s.(tables := Execute(s.tables, q)) else s
  }

  ghost function Run(s: Service, ops: seq<Op>): Service
    decreases ops
  {
    if ops == [] then s else Run(After(s, ops[0]), ops[1..])
  }

  /** Every cached workspace is one the hash is a credential of right now. */
  ghost predicate Coherent(s: Service) {
    Consistent(s.tables) && forall h :: h in s.cache ==> Vouched(s.tables, h, s.cache[h].found.workspace)
  }

  const EMPTY := Service(Tables(map[], map[]), map[])

  lemma RevokeCoherent(s: Service, k: string, w: string, viewer: Option<string>)
    requires Coherent(s)
    ensures Coherent(Revoked(s, k, w, viewer))
  {
    if Addressed(s.tables, k, w, viewer) {
      var h := s.tables.keys[k].hash;
      var t := MarkRevoked(s.tables, k, w, viewer);
      ExecuteConsistent(s.tables, DoRevoke(k, w, viewer));
      ExecuteConsistent(t, DoClearLegacy(w, h));
      forall g | g in s.cache && g != h
        ensures Vouched(ClearLegacy(t, w, h), g, s.cache[g].found.workspace)
      {
        VouchedUnless(s.tables, DoRevoke(k, w, viewer), g, s.cache[g].found.workspace);
        VouchedUnless(t, DoClearLegacy(w, h), g, s.cache[g].found.workspace);
      }
    }
  }

  lemma PauseCoherent(s: Service, k: string, w: string, viewer: Option<string>)
    requires Coherent(s)
    ensures Coherent(Paused(s, k, w, viewer))
  {
    if Addressed(s.tables, k, w, viewer) {
      ExecuteConsistent(s.tables, DoPause(k, w, viewer));
      forall g | g in s.cache && g != s.tables.keys[k].hash
        ensures Vouched(SetPaused(s.tables, k, w, viewer, true), g, s.cache[g].found.workspace)
      {
        VouchedUnless(s.tables, DoPause(k, w, viewer), g, s.cache[g].found.workspace);
      }
    }
  }

  lemma OtherCoherent(s: Service, q: Statement)
    requires Coherent(s)
    ensures Coherent(After(s, Other(q)))
  {
    if Plain(q) {
      ExecuteConsistent(s.tables, q);
      forall g | g in s.cache
        ensures Vouched(Execute(s.tables, q), g, s.cache[g].found.workspace)
      {
        VouchedUnless(s.tables, q, g, s.cache[g].found.workspace);
      }
    }
  }

  lemma StepCoherent(s: Service, op: Op)
    requires Coherent(s)
    ensures Coherent(After(s, op))
  {
    match op
    case Lookup(h, now) => ReadsAreVouched(s.tables, h);
    case Revoke(k, w, viewer) => RevokeCoherent(s, k, w, viewer);
    case Pause(k, w, viewer) => PauseCoherent(s, k, w, viewer);
    case Other(q) => OtherCoherent(s, q);
  }

  lemma {:induction false} AlwaysCoherent(s: Service, ops: seq<Op>)
    requires Coherent(s)
    ensures Coherent(Run(s, ops))
    decreases ops
  {
    if ops != [] {
      StepCoherent(s, ops[0]);
      AlwaysCoherent(After(s, ops[0]), ops[1..]);
    }
  }

  /** In every run a lookup only names a workspace the hash is a credential of at that very moment, cached or not,
      and it finds the right one whenever the tables would: caching can only age the plan and the active flag. */
  lemma LookupsAgreeWithTables(ops: seq<Op>, h: string, now: int)
    ensures var s := Run(EMPTY, ops);
            (Answer(s, h, now).Some? ==> Vouched(s.tables, h, Answer(s, h, now).value.workspace)) &&
            (ReadTables(s.tables, h).Some? ==>
               Answer(s, h, now).Some? && Answer(s, h, now).value.workspace == ReadTables(s.tables, h).value.workspace)
  {
    AlwaysCoherent(EMPTY, ops);
    var s := Run(EMPTY, ops);
    ReadsAreVouched(s.tables, h);
    if ReadTables(s.tables, h).Some? {
      OneWorkspaceIsVouched(s.tables, h, Answer(s, h, now).value.workspace, ReadTables(s.tables, h).value.workspace);
    }
  }

  // ---- revoking is final ----

  /** The hash has a row, that row is revoked, and the legacy column no longer carries it. */
  ghost predicate Dead(t: Tables, h: string) {
    HasRow(t, h) && (forall k :: k in t.keys && t.keys[k].hash == h ==> t.keys[k].revoked)
    && forall w :: !HoldsLegacy(t, w, h)
  }

  /** A hash that has a row gains no legacy holder. */
  lemma NoNewHolder(t: Tables, q: Statement, h: string, w: string)
    requires HasRow(t, h) && HoldsLegacy(Execute(t, q), w, h)
    ensures HoldsLegacy(t, w, h)
  {
  }

  lemma NoNewHolders(t: Tables, q: Statement, h: string)
    requires HasRow(t, h) && forall w :: !HoldsLegacy(t, w, h)
    ensures forall w :: !HoldsLegacy(Execute(t, q), w, h)
  {
    forall w
      ensures !HoldsLegacy(Execute(t, q), w, h)
    {
      if HoldsLegacy(Execute(t, q), w, h) {
        NoNewHolder(t, q, h, w);
      }
    }
  }

  lemma DeadStaysDead(t: Tables, q: Statement, h: string)
    requires Dead(t, h)
    ensures Dead(Execute(t, q), h)
  {
    var k :| k in t.keys && t.keys[k].hash == h;
    assert k in Execute(t, q).keys && Execute(t, q).keys[k].hash == h;
    NoNewHolders(t, q, h);
  }

  lemma DeadIsNotRead(t: Tables, h: string)
    requires Dead(t, h)
    ensures ReadKeys(t, h).None? && ReadLegacy(t, h).None?
  {
  }

  /** Marking the row and clearing the column leave the hash dead. */
  lemma RevokeKills(t: Tables, k: string, h: string)
    requires Consistent(t) && k in t.keys && t.keys[k].hash == h && t.keys[k].revoked
    ensures Dead(ClearLegacy(t, t.keys[k].workspace, h), h)
  {
    var t' := ClearLegacy(t, t.keys[k].workspace, h);
    assert k in t'.keys && t'.keys[k].hash == h;
    assert forall w :: HoldsLegacy(t', w, h) ==> HoldsLegacy(t, w, h);
  }

  lemma DeadRevoke(s: Service, k: string, w: string, viewer: Option<string>, h: string)
    requires Dead(s.tables, h)
    ensures Dead(Revoked(s, k, w, viewer).tables, h)
  {
    DeadStaysDead(s.tables, DoRevoke(k, w, viewer), h);
    if Addressed(s.tables, k, w, viewer) {
      DeadStaysDead(MarkRevoked(s.tables, k, w, viewer), DoClearLegacy(w, s.tables.keys[k].hash), h);
    }
  }

  lemma DeadStep(s: Service, op: Op, h: string)
    requires Dead(s.tables, h) && h !in s.cache
    ensures Dead(After(s, op).tables, h) && h !in After(s, op).cache
  {
    match op
    case Lookup(g, now) => DeadIsNotRead(s.tables, h);
    case Revoke(k, w, viewer) => DeadRevoke(s, k, w, viewer, h);
    case Pause(k, w, viewer) => DeadStaysDead(s.tables, DoPause(k, w, viewer), h);
    case Other(q) => DeadStaysDead(s.tables, q, h);
  }

  lemma {:induction false} DeadRun(s: Service, ops: seq<Op>, h: string)
    requires Dead(s.tables, h) && h !in s.cache
    ensures Dead(Run(s, ops).tables, h) && h !in Run(s, ops).cache
    decreases ops
  {
    if ops != [] {
      DeadStep(s, ops[0], h);
      DeadRun(After(s, ops[0]), ops[1..], h);
    }
  }

  /** Once a revoke has succeeded, in any reachable state and whatever happens afterwards, no lookup of that key
      returns a workspace: not from the cache, not from `api_keys`, not from the legacy column. */
  lemma RevokeIsFinal(before: seq<Op>, k: string, w: string, viewer: Option<string>, later: seq<Op>, now: int)
    requires Addressed(Run(EMPTY, before).tables, k, w, viewer)
    ensures var s := Run(EMPTY, before);
            Answer(Run(After(s, Revoke(k, w, viewer)), later), s.tables.keys[k].hash, now) == None
  {
    var s := Run(EMPTY, before);
    var h := s.tables.keys[k].hash;
    AlwaysCoherent(EMPTY, before);
    ExecuteConsistent(s.tables, DoRevoke(k, w, viewer));
    RevokeKills(MarkRevoked(s.tables, k, w, viewer), k, h);
    var s' := After(s, Revoke(k, w, viewer));
    DeadRun(s', later, h);
    DeadIsNotRead(Run(s', later).tables, h);
  }

  // ---- pausing blocks a key exactly when the legacy column does not carry it ----

  predicate ResumesKey(op: Op, k: string) {
    op.Other? && op.q.DoResume? && op.q.k == k
  }

  /** The key is paused or revoked, and its hash is in no legacy column. */
  ghost predicate Barred(t: Tables, k: string, h: string) {
    k in t.keys && t.keys[k].hash == h && (t.keys[k].paused || t.keys[k].revoked) && forall w :: !HoldsLegacy(t, w, h)
  }

  ghost predicate Blocked(s: Service, k: string, h: string) {
    Barred(s.tables, k, h) && h !in s.cache
  }

  lemma BarredIsNotRead(t: Tables, k: string, h: string)
    requires Consistent(t) && Barred(t, k, h)
    ensures ReadTables(t, h).None?
  {
  }

  lemma BarredStays(t: Tables, q: Statement, k: string, h: string)
    requires Barred(t, k, h) && (q.DoResume? ==> q.k != k)
    ensures Barred(Execute(t, q), k, h)
  {
    assert HasRow(t, h);
    NoNewHolders(t, q, h);
  }

  lemma BarredRevoke(s: Service, j: string, w: string, viewer: Option<string>, k: string, h: string)
    requires Barred(s.tables, k, h)
    ensures Barred(Revoked(s, j, w, viewer).tables, k, h)
  {
    BarredStays(s.tables, DoRevoke(j, w, viewer), k, h);
    if Addressed(s.tables, j, w, viewer) {
      BarredStays(MarkRevoked(s.tables, j, w, viewer), DoClearLegacy(w, s.tables.keys[j].hash), k, h);
    }
  }

  lemma BlockedStep(s: Service, op: Op, k: string, h: string)
    requires Consistent(s.tables) && Blocked(s, k, h) && !ResumesKey(op, k)
    ensures Blocked(After(s, op), k, h)
  {
    match op
    case Lookup(g, now) => BarredIsNotRead(s.tables, k, h);
    case Revoke(j, w, viewer) => BarredRevoke(s, j, w, viewer, k, h);
    case Pause(j, w, viewer) => BarredStays(s.tables, DoPause(j, w, viewer), k, h);
    case Other(q) => BarredStays(s.tables, q, k, h);
  }

  lemma {:induction false} BlockedRun(s: Service, ops: seq<Op>, k: string, h: string)
    requires Coherent(s) && Blocked(s, k, h) && forall i :: 0 <= i < |ops| ==> !ResumesKey(ops[i], k)
    ensures Blocked(Run(s, ops), k, h) && Coherent(Run(s, ops))
    decreases ops
  {
    if ops != [] {
      StepCoherent(s, ops[0]);
      BlockedStep(s, ops[0], k, h);
      BlockedRun(After(s, ops[0]), ops[1..], k, h);
    }
  }

  /** A paused key without a legacy hash stays refused until it is resumed. */
  lemma PauseHolds(before: seq<Op>, k: string, w: string, viewer: Option<string>, later: seq<Op>, now: int)
    requires Addressed(Run(EMPTY, before).tables, k, w, viewer)
    requires !HoldsLegacy(Run(EMPTY, before).tables, w, Run(EMPTY, before).tables.keys[k].hash)
    requires forall i :: 0 <= i < |later| ==> !ResumesKey(later[i], k)
    ensures var s := Run(EMPTY, before);
            Answer(Run(After(s, Pause(k, w, viewer)), later), s.tables.keys[k].hash, now) == None
  {
    var s := Run(EMPTY, before);
    var h := s.tables.keys[k].hash;
    AlwaysCoherent(EMPTY, before);
    PauseCoherent(s, k, w, viewer);
    var s' := After(s, Pause(k, w, viewer));
    assert forall v :: HoldsLegacy(s'.tables, v, h) <==> HoldsLegacy(s.tables, v, h);
    BlockedRun(s', later, k, h);
    BarredIsNotRead(Run(s', later).tables, k, h);
  }

  /** Right after a pause the key still authenticates if and only if its workspace is active and carries its hash in
      the legacy column, which pausing does not clear. */
  lemma PauseBlocksUnlessLegacy(before: seq<Op>, k: string, w: string, viewer: Option<string>, now: int)
    requires Addressed(Run(EMPTY, before).tables, k, w, viewer)
    ensures var s := Run(EMPTY, before);
            var h := s.tables.keys[k].hash;
            Answer(After(s, Pause(k, w, viewer)), h, now).Some?
            <==> HoldsLegacy(s.tables, w, h) && s.tables.workspaces[w].active
  {
    var s := Run(EMPTY, before);
    var h := s.tables.keys[k].hash;
    AlwaysCoherent(EMPTY, before);
    var t := After(s, Pause(k, w, viewer)).tables;
    assert t.workspaces == s.tables.workspaces;
    assert forall v :: HoldsLegacy(t, v, h) <==> HoldsLegacy(s.tables, v, h);
    assert forall j :: !Live(t, j, h);
  }

  // ---- what a read finds, over the fields of the rows ----

  /** A row authenticates a hash: neither revoked nor paused, and of an active workspace. */
  predicate Authenticates(keys: map<string, KeyRow>, workspaces: map<string, Workspace>, k: string, h: string) {
    k in keys && keys[k].hash == h && !keys[k].revoked && !keys[k].paused &&
    keys[k].workspace in workspaces && workspaces[keys[k].workspace].active
  }

  predicate AuthenticatesLegacy(workspaces: map<string, Workspace>, w: string, h: string) {
    w in workspaces && workspaces[w].legacy == Some(h) && workspaces[w].active
  }

  /** An answer from the tables: a key row that authenticates the hash, or without one a legacy column that does, with
      the workspace's current plan; nothing when there is neither. */
  ghost predicate IsReadOf(r: Option<Found>, keys: map<string, KeyRow>, workspaces: map<string, Workspace>, h: string) {
    if r.None? then (forall k :: !Authenticates(keys, workspaces, k, h)) && forall w :: !AuthenticatesLegacy(workspaces, w, h)
    else
      r.value.workspace in workspaces && r.value.plan == workspaces[r.value.workspace].plan &&
      if r.value.key.Some?
      then Authenticates(keys, workspaces, r.value.key.value, h) && keys[r.value.key.value].workspace == r.value.workspace
      else (forall k :: !Authenticates(keys, workspaces, k, h)) && AuthenticatesLegacy(workspaces, r.value.workspace, h)
  }

  lemma ReadTablesIs(t: Tables, h: string)
    ensures IsReadOf(ReadTables(t, h), t.keys, t.workspaces, h)
  {
    if exists k :: Live(t, k, h) {
      var k :| Live(t, k, h) && ReadKeys(t, h) == Some(Found(t.keys[k].workspace, t.workspaces[t.keys[k].workspace].plan, Some(k)));
      assert Authenticates(t.keys, t.workspaces, k, h);
    } else {
      assert forall k :: Authenticates(t.keys, t.workspaces, k, h) <==> Live(t, k, h);
      assert forall w :: AuthenticatesLegacy(t.workspaces, w, h) <==> HoldsLegacy(t, w, h) && t.workspaces[w].active;
    }
  }

  /** A key handed out at signup authenticates at once, for the new workspace on the free plan. */
  lemma SignedUpKeyAuthenticates(t: Tables, w: string, h: string)
    requires w !in t.workspaces && Unused(t, h) && Consistent(t)
    ensures ReadTables(SignUp(t, w, h), h) == Some(Found(w, "free", None))
    ensures SignUp(t, w, h).keys == t.keys && forall v :: v in t.workspaces ==> v in SignUp(t, w, h).workspaces && SignUp(t, w, h).workspaces[v] == t.workspaces[v]
  {
    var t' := SignUp(t, w, h);
    assert forall k :: k in t.keys ==> t.keys[k].hash != h;
    SignUpConsistent(t, w, h);
    LegacyReadIs(t', w, h);
  }

  /** The backfill gives the workspace's legacy key a usable row under a new id, once, and no key that authenticated stops
      doing so, none starts, and none changes workspace or plan. */
  lemma BackfillKeepsAnswers(t: Tables, w: string, k: string, h: string)
    requires Consistent(t)
    ensures var a, b := ReadTables(t, h), ReadTables(Backfill(t, w, k), h);
            (a.Some? <==> b.Some?) && (a.Some? ==> a.value.workspace == b.value.workspace && a.value.plan == b.value.plan)
    ensures w in t.workspaces && t.workspaces[w].legacy == Some(h) && k !in t.keys && !HasRow(t, h) ==>
            Backfill(t, w, k).keys == t.keys[k := KeyRow(w, h, "Primary", false, false, None)]
    ensures !(w in t.workspaces && t.workspaces[w].legacy.Some? && k !in t.keys && !HasRow(t, t.workspaces[w].legacy.value)) ==>
            Backfill(t, w, k) == t
    ensures Backfill(t, w, k).workspaces == t.workspaces
  {
    var t' := Backfill(t, w, k);
    if t' != t {
      BackfillKeepsReads(t, w, k, h);
    }
  }

  lemma BackfillKeepsReads(t: Tables, w: string, k: string, h: string)
    requires Consistent(t) && Backfill(t, w, k) != t
    ensures var a, b := ReadTables(t, h), ReadTables(Backfill(t, w, k), h);
            (a.Some? <==> b.Some?) && (a.Some? ==> a.value.workspace == b.value.workspace && a.value.plan == b.value.plan)
  {
    var t' := Backfill(t, w, k);
    var l := t.workspaces[w].legacy.value;
    ExecuteConsistent(t, DoBackfill(w, k));
    assert forall v, g :: HoldsLegacy(t', v, g) <==> HoldsLegacy(t, v, g);
    assert forall j :: j != k ==> (Live(t', j, h) <==> Live(t, j, h));
    if h == l {
      assert forall j :: !Live(t, j, h);
      if t.workspaces[w].active {
        LegacyReadIs(t, w, h);
        KeyReadIs(t', k, h);
      } else {
        assert forall j :: !Live(t', j, h);
        assert forall v :: HoldsLegacy(t, v, h) ==> v == w;
      }
    } else {
      assert !Live(t', k, h);
      if j :| Live(t, j, h) {
        KeyReadIs(t, j, h);
        KeyReadIs(t', j, h);
      } else if v :| HoldsLegacy(t, v, h) && t.workspaces[v].active {
        LegacyReadIs(t, v, h);
        LegacyReadIs(t', v, h);
      }
    }
  }

  /** Changing plan and activity touches that workspace alone, and not its legacy column. */
  lemma SetWorkspaceIs(t: Tables, w: string, plan: string, active: bool)
    ensures var t' := SetWorkspace(t, w, plan, active);
            t'.keys == t.keys && t'.workspaces.Keys == t.workspaces.Keys &&
            (w in t.workspaces ==> t'.workspaces[w] == Workspace(plan, active, t.workspaces[w].legacy)) &&
            forall v :: v in t.workspaces && v != w ==> t'.workspaces[v] == t.workspaces[v]
  {
  }

  // ---- the handlers themselves ----

  class KeyService {
    var keys: map<string, KeyRow>
    var workspaces: map<string, Workspace>
    var cache: Cache

    ghost function State(): Service
      reads this
    {
      Service(Tables(keys, workspaces), cache)
    }

    constructor ()
      ensures State() == EMPTY
    {
      keys, workspaces, cache := map[], map[], map[];
    }

    method Lookup(h: string, now: int) returns (r: Option<Found>)
      requires Consistent(State().tables)
      modifies this`cache
      ensures r == Answer(old(State()), h, now)
      ensures State() == After(old(State()), Op.Lookup(h, now))
      ensures keys == old(keys) && workspaces == old(workspaces)
      ensures h in old(cache) && now - old(cache)[h].at < TTL ==> r == Some(old(cache)[h].found) && cache == old(cache)
      ensures !(h in old(cache) && now - old(cache)[h].at < TTL) ==>
              IsReadOf(r, keys, workspaces, h) && cache == if r.Some? then old(cache)[h := Entry(r.value, now)] else old(cache) - {h}
    {
      ReadTablesIs(State().tables, h);
      if h in cache {
        if now - cache[h].at < TTL {
          return Some(cache[h].found);
        }
        cache := cache - {h};
      }
      ghost var t := State().tables;
      if k :| k in keys && keys[k].hash == h && !keys[k].revoked && !keys[k].paused
              && keys[k].workspace in workspaces && workspaces[keys[k].workspace].active {
        r := Some(Found(keys[k].workspace, workspaces[keys[k].workspace].plan, Some(k)));
        KeyReadIs(t, k, h);
      } else if w :| w in workspaces && workspaces[w].legacy == Some(h) && workspaces[w].active {
        r := Some(Found(w, workspaces[w].plan, None));
        LegacyReadIs(t, w, h);
      } else {
        return None;
      }
      cache := cache[h := Entry(r.value, now)];
    }

    /** Refused at the plan's cap on unrevoked keys; otherwise one new row. The id and the hash are freshly drawn. */
    method CreateKey(k: string, w: string, h: string, name: string, creator: Option<string>, cap: Option<int>) returns (ok: bool)
      requires k !in keys && w in workspaces && Unused(State().tables, h)
      modifies this`keys
      ensures ok <==> cap.None? || |set j | j in old(keys) && old(keys)[j].workspace == w && !old(keys)[j].revoked| < cap.value
      ensures State() == if ok then After(old(State()), Other(DoInsertKey(k, KeyRow(w, h, name, false, false, creator)))) else old(State())
      ensures keys == if ok then old(keys)[k := KeyRow(w, h, name, false, false, creator)] else old(keys)
    {
      var current := |set j | j in keys && keys[j].workspace == w && !keys[j].revoked|;
      if cap.Some? && current >= cap.value {
        return false;
      }
      keys := keys[k := KeyRow(w, h, name, false, false, creator)];
      return true;
    }

    method UpdateKey(k: string, w: string, viewer: Option<string>, name: string) returns (found: bool)
      modifies this`keys
      ensures found <==> Addressed(old(State()).tables, k, w, viewer)
      ensures State() == After(old(State()), Other(DoRename(k, w, viewer, name)))
      ensures found <==> k in old(keys) && old(keys)[k].workspace == w && !old(keys)[k].revoked && (viewer.None? || old(keys)[k].creator == viewer)
      ensures keys == if found then old(keys)[k := old(keys)[k].(name := name)] else old(keys)
    {
      found := k in keys && keys[k].workspace == w && !keys[k].revoked && (viewer.None? || keys[k].creator == viewer);
      if found {
        keys := keys[k := keys[k].(name := name)];
      }
    }

    /** Mark the row, evict its hash, then clear the legacy column. */
    method RevokeKey(k: string, w: string, viewer: Option<string>) returns (found: bool)
      modifies this
      ensures found <==> Addressed(old(State()).tables, k, w, viewer)
      ensures State() == After(old(State()), Revoke(k, w, viewer))
      ensures found <==> k in old(keys) && old(keys)[k].workspace == w && !old(keys)[k].revoked && (viewer.None? || old(keys)[k].creator == viewer)
      ensures !found ==> keys == old(keys) && cache == old(cache) && workspaces == old(workspaces)
      ensures found ==>
              var h := old(keys)[k].hash;
              keys == old(keys)[k := old(keys)[k].(revoked := true)] && cache == old(cache) - {h} &&
              workspaces == if w in old(workspaces) && old(workspaces)[w].legacy == Some(h)
                            then old(workspaces)[w := old(workspaces)[w].(legacy := None)] else old(workspaces)
    {
      found := k in keys && keys[k].workspace == w && !keys[k].revoked && (viewer.None? || keys[k].creator == viewer);
      if found {
        keys := keys[k := keys[k].(revoked := true)];
        var h := keys[k].hash;
        cache := cache - {h};
        if w in workspaces && workspaces[w].legacy == Some(h) {
          workspaces := workspaces[w := workspaces[w].(legacy := None)];
        }
      }
    }

    method PauseKey(k: string, w: string, viewer: Option<string>) returns (found: bool)
      modifies this`keys, this`cache
      ensures found <==> Addressed(old(State()).tables, k, w, viewer)
      ensures State() == After(old(State()), Pause(k, w, viewer))
      ensures found <==> k in old(keys) && old(keys)[k].workspace == w && !old(keys)[k].revoked && (viewer.None? || old(keys)[k].creator == viewer)
      ensures keys == if found then old(keys)[k := old(keys)[k].(paused := true)] else old(keys)
      ensures cache == if found then old(cache) - {old(keys)[k].hash} else old(cache)
    {
      found := k in keys && keys[k].workspace == w && !keys[k].revoked && (viewer.None? || keys[k].creator == viewer);
      if found {
        keys := keys[k := keys[k].(paused := true)];
        cache := cache - {keys[k].hash};
      }
    }

    method ResumeKey(k: string, w: string, viewer: Option<string>) returns (found: bool)
      modifies this`keys
      ensures found <==> Addressed(old(State()).tables, k, w, viewer)
      ensures State() == After(old(State()), Other(DoResume(k, w, viewer)))
      ensures found <==> k in old(keys) && old(keys)[k].workspace == w && !old(keys)[k].revoked && (viewer.None? || old(keys)[k].creator == viewer)
      ensures keys == if found then old(keys)[k := old(keys)[k].(paused := false)] else old(keys)
    {
      found := k in keys && keys[k].workspace == w && !keys[k].revoked && (viewer.None? || keys[k].creator == viewer);
      if found {
        keys := keys[k := keys[k].(paused := false)];
      }
    }
  }
}
