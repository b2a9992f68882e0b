/** The same handlers with every awaited statement a step of its own, so that lookups and revokes interleave. */
module ApiKeyRaces {
  import opened Options
  import opened ApiKeyStore

  /** A cache entry and the lookup that wrote it. */
  datatype Stamped = Stamped(entry: Entry, writer: nat)

  datatype Phase =
    | Asking
    | Missed
    | Holding(found: Found)
    | Refused
    | ReadAnswer(found: Found)
    | CacheAnswer(hit: Stamped, now: int)

  datatype LookupTask = LookupTask(hash: string, phase: Phase)

  datatype Progress = Marked | Evicted | Completed
  datatype RevokeTask = RevokeTask(key: string, workspace: string, hash: string, progress: Progress)

  datatype State = State(tables: Tables, cache: map<string, Stamped>, lookups: seq<LookupTask>,
                         revokes: seq<RevokeTask>, pauses: seq<string>)

  datatype Action =
    | Begin(h: string, now: int)
    | QueryKeys(i: nat)
    | QueryLegacy(i: nat)
    | Finish(i: nat, now: int)
    | RevokeMark(k: string, w: string, viewer: Option<string>)
    | RevokeEvict(j: nat)
    | RevokeClear(j: nat)
    | PauseMark(k: string, w: string, viewer: Option<string>)
    | PauseEvict(j: nat)
    | Change(q: Statement)

  predicate InPhase(s: State, i: nat, p: Phase) {
    i < |s.lookups| && s.lookups[i].phase == p
  }

  function SetPhase(s: State, i: nat, p: Phase): State
    requires i < |s.lookups|
  {
    s.(lookups := s.lookups[i := s.lookups[i].(phase := p)])
  }

  /** Up to its first await a lookup answers from a fresh entry or drops a stale one. */
  function BeginStep(s: State, h: string, now: int): State {
    if h in s.cache && now - s.cache[h].entry.at < TTL
    then s.(lookups := s.lookups + [LookupTask(h, CacheAnswer(s.cache[h], now))])
    else s.(lookups := s.lookups + [LookupTask(h, Asking)], cache := s.cache - {h})
  }

  ghost function QueryKeysStep(s: State, i: nat): State {
    if !InPhase(s, i, Asking) then s
    else
      var r := ReadKeys(s.tables, s.lookups[i].hash);
      SetPhase(s, i, if r.Some? then Holding(r.value) else Missed)
  }

  ghost function QueryLegacyStep(s: State, i: nat): State {
    if !InPhase(s, i, Missed) then s
    else
      var r := ReadLegacy(s.tables, s.lookups[i].hash);
      SetPhase(s, i, if r.Some? then Holding(r.value) else Refused)
  }

  function FinishStep(s: State, i: nat, now: int): State {
    if i < |s.lookups| && s.lookups[i].phase.Holding? then
      var f := s.lookups[i].phase.found;
      SetPhase(s, i, ReadAnswer(f)).(cache := s.cache[s.lookups[i].hash := Stamped(Entry(f, now), i)])
    else s
  }

  function RevokeMarkStep(s: State, k: string, w: string, viewer: Option<string>): State {
    if !Addressed(s.tables, k, w, viewer) then s
    else s.(tables := MarkRevoked(s.tables, k, w, viewer),
            revokes := s.revokes + [RevokeTask(k, w, s.tables.keys[k].hash, Marked)])
  }

  predicate AtProgress(s: State, j: nat, p: Progress) {
    j < |s.revokes| && s.revokes[j].progress == p
  }

  function RevokeEvictStep(s: State, j: nat): State {
    if !AtProgress(s, j, Marked) then s
    else s.(cache := s.cache - {s.revokes[j].hash}, revokes := s.revokes[j := s.revokes[j].(progress := Evicted)])
  }

  function RevokeClearStep(s: State, j: nat): State {
    if !AtProgress(s, j, Evicted) then s
    else s.(tables := ClearLegacy(s.tables, s.revokes[j].workspace, s.revokes[j].hash),
            revokes := s.revokes[j := s.revokes[j].(progress := Completed)])
  }

  function PauseMarkStep(s: State, k: string, w: string, viewer: Option<string>): State {
    if !Addressed(s.tables, k, w, viewer) then s
    else s.(tables := SetPaused(s.tables, k, w, viewer, true), pauses := s.pauses + [s.tables.keys[k].hash])
  }

  function PauseEvictStep(s: State, j: nat): State {
    if j < |s.pauses| then s.(cache := s.cache - {s.pauses[j]}) else s
  }

  ghost function Step(s: State, a: Action): State {
    match a
    case Begin(h, now) => BeginStep(s, h, now)
    case QueryKeys(i) => QueryKeysStep(s, i)
    case QueryLegacy(i) => QueryLegacyStep(s, i)
    case Finish(i, now) => FinishStep(s, i, now)
    case RevokeMark(k, w, viewer) => RevokeMarkStep(s, k, w, viewer)
    case RevokeEvict(j) => RevokeEvictStep(s, j)
    case RevokeClear(j) => RevokeClearStep(s, j)
    case PauseMark(k, w, viewer) => PauseMarkStep(s, k, w, viewer)
    case PauseEvict(j) => PauseEvictStep(s, j)
    case Change(q) => if Plain(q) then s.(tables := Execute(s.tables, q)) else s
  }

  ghost function Run(s: State, acts: seq<Action>): State
    decreases acts
  {
    if acts == [] then s else Run(Step(s, acts[0]), acts[1..])
  }

  const EMPTY := State(Tables(map[], map[]), map[], [], [], [])

  // ---- the tables move by the same statements ----

  function TableStatement(s: State, a: Action): Option<Statement> {
    match a
    case RevokeMark(k, w, viewer) => Some(DoRevoke(k, w, viewer))
    case RevokeClear(j) => if AtProgress(s, j, Evicted) then Some(DoClearLegacy(s.revokes[j].workspace, s.revokes[j].hash)) else None
    case PauseMark(k, w, viewer) => Some(DoPause(k, w, viewer))
    case Change(q) => if Plain(q) then Some(q) else None
    case _ => None
  }

  /** The row a running revoke has marked is and stays revoked. */
  ghost predicate RevokeKnows(t: Tables, r: RevokeTask) {
    r.key in t.keys && t.keys[r.key].hash == r.hash && t.keys[r.key].workspace == r.workspace && t.keys[r.key].revoked
  }

  ghost predicate Sound(s: State) {
    Consistent(s.tables) && forall j :: 0 <= j < |s.revokes| ==> RevokeKnows(s.tables, s.revokes[j])
  }

  lemma KnowledgeKept(t: Tables, q: Statement, r: RevokeTask)
    requires RevokeKnows(t, r)
    ensures RevokeKnows(Execute(t, q), r)
  {
  }

  /** One statement on the tables, with the revokes at most further along. */
  lemma StatementSound(s: State, q: Statement, s': State)
    requires Sound(s) && s'.tables == Execute(s.tables, q) && |s'.revokes| == |s.revokes|
    requires forall j :: 0 <= j < |s.revokes| ==> s'.revokes[j] == s.revokes[j].(progress := s'.revokes[j].progress)
    ensures Sound(s')
  {
    ExecuteConsistent(s.tables, q);
    forall j | 0 <= j < |s'.revokes|
      ensures RevokeKnows(s'.tables, s'.revokes[j])
    {
      KnowledgeKept(s.tables, q, s.revokes[j]);
    }
  }

  lemma RevokeMarkSound(s: State, k: string, w: string, viewer: Option<string>)
    requires Sound(s)
    ensures Sound(RevokeMarkStep(s, k, w, viewer))
  {
    var s' := RevokeMarkStep(s, k, w, viewer);
    StatementSound(s, DoRevoke(k, w, viewer), s.(tables := MarkRevoked(s.tables, k, w, viewer)));
    if Addressed(s.tables, k, w, viewer) {
      assert s'.revokes[..|s.revokes|] == s.revokes;
    }
  }

  lemma SoundStep(s: State, a: Action)
    requires Sound(s)
    ensures Sound(Step(s, a))
  {
    match a
    case RevokeMark(k, w, viewer) => RevokeMarkSound(s, k, w, viewer);
    case RevokeClear(j) =>
      if AtProgress(s, j, Evicted) {
        StatementSound(s, DoClearLegacy(s.revokes[j].workspace, s.revokes[j].hash), RevokeClearStep(s, j));
      }
    case PauseMark(k, w, viewer) => StatementSound(s, DoPause(k, w, viewer), PauseMarkStep(s, k, w, viewer));
    case Change(q) =>
      if Plain(q) {
        StatementSound(s, q, Step(s, a));
      }
    case _ =>
  }

  lemma {:induction false} AlwaysSound(s: State, acts: seq<Action>)
    requires Sound(s)
    ensures Sound(Run(s, acts))
    decreases acts
  {
    if acts != [] {
      SoundStep(s, acts[0]);
      AlwaysSound(Step(s, acts[0]), acts[1..]);
    }
  }

  /** In every interleaving the last statement of a revoke leaves the hash dead in the tables. */
  lemma CompletedRevokeKills(acts: seq<Action>, j: nat)
    requires AtProgress(Run(EMPTY, acts), j, Evicted)
    ensures Dead(Step(Run(EMPTY, acts), RevokeClear(j)).tables, Run(EMPTY, acts).revokes[j].hash)
  {
    var s := Run(EMPTY, acts);
    AlwaysSound(EMPTY, acts);
    assert RevokeKnows(s.tables, s.revokes[j]);
    RevokeKills(s.tables, s.revokes[j].key, s.revokes[j].hash);
  }

  lemma DeadStep(s: State, a: Action, h: string)
    requires Dead(s.tables, h)
    ensures Dead(Step(s, a).tables, h)
  {
    if TableStatement(s, a).Some? {
      DeadStaysDead(s.tables, TableStatement(s, a).value, h);
    }
  }

  // ---- who wrote a cache entry, and when ----

  /** Lookup `i` had made its database read by state `s`. */
  predicate HadRead(s: State, i: nat) {
    i < |s.lookups| && (s.lookups[i].phase.Holding? || s.lookups[i].phase.ReadAnswer?)
  }

  /** Lookup `i` had stored its answer in the cache by state `s`. */
  predicate HadStored(s: State, i: nat) {
    i < |s.lookups| && s.lookups[i].phase.ReadAnswer?
  }

  ghost predicate Written(s: State) {
    forall h :: h in s.cache ==> HadStored(s, s.cache[h].writer) && s.lookups[s.cache[h].writer].hash == h
  }

  lemma StoredStaysStored(s: State, a: Action, i: nat)
    requires HadStored(s, i)
    ensures HadStored(Step(s, a), i) && Step(s, a).lookups[i].hash == s.lookups[i].hash
  {
  }

  lemma CacheMoves(s: State, a: Action, h: string)
    requires h in Step(s, a).cache
    ensures (h in s.cache && Step(s, a).cache[h] == s.cache[h])
         || (a.Finish? && Step(s, a).cache[h].writer == a.i && !HadStored(s, a.i) && HadStored(Step(s, a), a.i)
             && Step(s, a).lookups[a.i].hash == h)
  {
  }

  lemma {:induction false} AlwaysWritten(s: State, acts: seq<Action>)
    requires Written(s)
    ensures Written(Run(s, acts))
    decreases acts
  {
    if acts != [] {
      var s' := Step(s, acts[0]);
      forall h | h in s'.cache
        ensures HadStored(s', s'.cache[h].writer) && s'.lookups[s'.cache[h].writer].hash == h
      {
        CacheMoves(s, acts[0], h);
        if h in s.cache {
          StoredStaysStored(s, acts[0], s.cache[h].writer);
        }
      }
      AlwaysWritten(s', acts[1..]);
    }
  }

  /** Entries for a hash evicted in `se` are written by lookups that had not stored by then. */
  ghost predicate StoredSince(se: State, s: State, h: string) {
    (h in s.cache ==> !HadStored(se, s.cache[h].writer)) &&
    forall i: nat :: HadStored(se, i) ==> HadStored(s, i)
  }

  lemma {:induction false} EntriesAreStoredSince(se: State, s: State, acts: seq<Action>, h: string)
    requires StoredSince(se, s, h)
    ensures StoredSince(se, Run(s, acts), h)
    decreases acts
  {
    if acts != [] {
      var s' := Step(s, acts[0]);
      if h in s'.cache {
        CacheMoves(s, acts[0], h);
      }
      forall i: nat | HadStored(se, i)
        ensures HadStored(s', i)
      {
        StoredStaysStored(s, acts[0], i);
      }
      EntriesAreStoredSince(se, s', acts[1..], h);
    }
  }

  // ---- where an answer for a dead hash can still come from ----

  /** A lookup of the hash that stored after the eviction what it had read before completion. */
  predicate Racer(se: State, s0: State, i: nat, h: string) {
    HadRead(s0, i) && s0.lookups[i].hash == h && !HadStored(se, i)
  }

  ghost predicate TaskTraced(se: State, s0: State, i: nat, l: LookupTask) {
    match l.phase
    case Holding(_) => Racer(se, s0, i, l.hash)
    case ReadAnswer(_) => HadRead(s0, i)
    case CacheAnswer(hit, now) => i < |s0.lookups| || (Racer(se, s0, hit.writer, l.hash) && now - hit.entry.at < TTL)
    case _ => true
  }

  /** Since `s0` the hash has been dead, and everything said about it goes back to a racer. */
  ghost predicate Traced(se: State, s0: State, s: State, h: string) {
    Dead(s.tables, h) && |s0.lookups| <= |s.lookups|
    && (h in s.cache ==> Racer(se, s0, s.cache[h].writer, h))
    && forall i :: 0 <= i < |s.lookups| && s.lookups[i].hash == h ==> TaskTraced(se, s0, i, s.lookups[i])
  }

  lemma TracedQuery(se: State, s0: State, s: State, i: nat, h: string)
    requires Traced(se, s0, s, h)
    ensures Traced(se, s0, QueryKeysStep(s, i), h) && Traced(se, s0, QueryLegacyStep(s, i), h)
  {
  }

  lemma TracedFinish(se: State, s0: State, s: State, i: nat, now: int, h: string)
    requires Traced(se, s0, s, h)
    ensures Traced(se, s0, FinishStep(s, i, now), h)
  {
  }

  lemma TracedBegin(se: State, s0: State, s: State, g: string, now: int, h: string)
    requires Traced(se, s0, s, h)
    ensures Traced(se, s0, BeginStep(s, g, now), h)
  {
  }

  lemma TracedStep(se: State, s0: State, s: State, a: Action, h: string)
    requires Traced(se, s0, s, h)
    ensures Traced(se, s0, Step(s, a), h)
  {
    match a
    case Begin(g, now) => TracedBegin(se, s0, s, g, now, h);
    case QueryKeys(i) => TracedQuery(se, s0, s, i, h);
    case QueryLegacy(i) => TracedQuery(se, s0, s, i, h);
    case Finish(i, now) => TracedFinish(se, s0, s, i, now, h);
    case _ => DeadStep(s, a, h);
  }

  lemma {:induction false} TracedRun(se: State, s0: State, s: State, acts: seq<Action>, h: string)
    requires Traced(se, s0, s, h)
    ensures Traced(se, s0, Run(s, acts), h)
    decreases acts
  {
    if acts != [] {
      TracedStep(se, s0, s, acts[0], h);
      TracedRun(se, s0, Step(s, acts[0]), acts[1..], h);
    }
  }

  lemma {:induction false} RunConcat(s: State, xs: seq<Action>, ys: seq<Action>)
    ensures Run(s, xs + ys) == Run(Run(s, xs), ys)
    decreases xs
  {
    if xs == [] {
      assert xs + ys == ys;
    } else {
      assert (xs + ys)[1..] == xs[1..] + ys;
      RunConcat(Step(s, xs[0]), xs[1..], ys);
    }
  }

  /** In every interleaving, let revoke `j` evict its hash after `before`, and clear the legacy column after `during`.
      A lookup of that hash begun later finds nothing in the tables, and if it is answered at all it is by a cache
      entry less than one TTL old, written after the eviction by a lookup of the same hash whose read was made before the clearing. */
  lemma StaleAnswersComeFromRacers(before: seq<Action>, j: nat, during: seq<Action>, later: seq<Action>, i: nat)
    requires AtProgress(Run(EMPTY, before), j, Marked)
    requires AtProgress(Run(Step(Run(EMPTY, before), RevokeEvict(j)), during), j, Evicted)
    requires var s0 := Step(Run(Step(Run(EMPTY, before), RevokeEvict(j)), during), RevokeClear(j));
             |s0.lookups| <= i < |Run(s0, later).lookups| && Run(s0, later).lookups[i].hash == Run(EMPTY, before).revokes[j].hash
    ensures var se := Step(Run(EMPTY, before), RevokeEvict(j));
            var s0 := Step(Run(se, during), RevokeClear(j));
            var p := Run(s0, later).lookups[i].phase;
            !p.Holding? && !p.ReadAnswer? &&
            (p.CacheAnswer? ==> p.now - p.hit.entry.at < TTL && HadRead(s0, p.hit.writer) && !HadStored(se, p.hit.writer)
                                && s0.lookups[p.hit.writer].hash == Run(EMPTY, before).revokes[j].hash)
  {
    var s1 := Run(EMPTY, before);
    var se := Step(s1, RevokeEvict(j));
    var s2 := Run(se, during);
    var s0 := Step(s2, RevokeClear(j));
    var h := s1.revokes[j].hash;
    var acts := before + [RevokeEvict(j)] + during;
    RunAround(before, RevokeEvict(j), during);
    TaskKeepsHash(se, during, j);
    CompletedRevokeKills(acts, j);
    AlwaysWritten(EMPTY, acts);
    EntriesAreStoredSince(se, se, during, h);
    TracedRun(se, s0, s0, later, h);
    assert TaskTraced(se, s0, i, Run(s0, later).lookups[i]);
  }

  lemma RunAround(before: seq<Action>, a: Action, after: seq<Action>)
    ensures Run(EMPTY, before + [a] + after) == Run(Step(Run(EMPTY, before), a), after)
  {
    var s := Run(EMPTY, before);
    RunConcat(EMPTY, before + [a], after);
    RunConcat(EMPTY, before, [a]);
    assert Run(s, [a]) == Run(Step(s, a), [a][1..]) == Step(s, a);
  }

  lemma {:induction false} TaskKeepsHash(s: State, acts: seq<Action>, j: nat)
    requires j < |s.revokes|
    ensures j < |Run(s, acts).revokes| && Run(s, acts).revokes[j].hash == s.revokes[j].hash
    decreases acts
  {
    if acts != [] {
      TaskKeepsHash(Step(s, acts[0]), acts[1..], j);
    }
  }

  // ---- exactly when a revoke is final ----

  /** The clock after an action; `None` stands for a clock that may go back. */
  function Later(clock: Option<int>, a: Action): Option<int> {
    if clock.Some? && (a.Begin? || a.Finish?) then Some(a.now) else clock
  }

  function LaterAll(clock: Option<int>, acts: seq<Action>): Option<int>
    decreases acts
  {
    if acts == [] then clock else LaterAll(Later(clock, acts[0]), acts[1..])
  }

  /** No reading is before the clock, and the readings never go back. */
  predicate OnTime(clock: Option<int>, acts: seq<Action>)
    decreases acts
  {
    acts == [] ||
    ((clock.Some? && (acts[0].Begin? || acts[0].Finish?) ==> clock.value <= acts[0].now)
     && OnTime(Later(clock, acts[0]), acts[1..]))
  }

  /** The hash has no entry, or one that has expired and on a clock that never goes back stays so. */
  predicate NoFreshEntry(s: State, h: string, clock: Option<int>) {
    h in s.cache ==> clock.Some? && clock.value - s.cache[h].entry.at >= TTL
  }

  /** Nothing fresh is cached for the hash, and no lookup of it holds an answer still to be stored. */
  ghost predicate Quiet(s: State, h: string, clock: Option<int>) {
    NoFreshEntry(s, h, clock) && forall i :: 0 <= i < |s.lookups| && s.lookups[i].hash == h ==> !s.lookups[i].phase.Holding?
  }

  predicate Answered(l: LookupTask, h: string) {
    l.hash == h && (l.phase.CacheAnswer? || l.phase.ReadAnswer?)
  }

  /** Whatever happens from here on, no lookup that begins later returns a workspace for the hash. */
  ghost predicate Final(s: State, h: string, clock: Option<int>) {
    forall acts: seq<Action>, i: nat :: OnTime(clock, acts) && |s.lookups| <= i < |Run(s, acts).lookups| ==>
      !Answered(Run(s, acts).lookups[i], h)
  }

  /** Quiet and dead since `s0`, with no answer to any lookup begun since. */
  ghost predicate QuietSince(s0: State, s: State, h: string, clock: Option<int>) {
    Dead(s.tables, h) && Quiet(s, h, clock) && |s0.lookups| <= |s.lookups|
    && forall i :: |s0.lookups| <= i < |s.lookups| ==> !Answered(s.lookups[i], h)
  }

  lemma QuietQuery(s0: State, s: State, i: nat, h: string, clock: Option<int>)
    requires QuietSince(s0, s, h, clock)
    ensures QuietSince(s0, QueryKeysStep(s, i), h, clock) && QuietSince(s0, QueryLegacyStep(s, i), h, clock)
  {
    DeadIsNotRead(s.tables, h);
  }

  lemma QuietBegin(s0: State, s: State, g: string, now: int, h: string, clock: Option<int>)
    requires QuietSince(s0, s, h, clock) && (clock.Some? ==> clock.value <= now)
    ensures QuietSince(s0, BeginStep(s, g, now), h, if clock.Some? then Some(now) else None)
  {
  }

  lemma QuietFinish(s0: State, s: State, i: nat, now: int, h: string, clock: Option<int>)
    requires QuietSince(s0, s, h, clock) && (clock.Some? ==> clock.value <= now)
    ensures QuietSince(s0, FinishStep(s, i, now), h, if clock.Some? then Some(now) else None)
  {
  }

  lemma QuietOther(s0: State, s: State, a: Action, h: string, clock: Option<int>)
    requires QuietSince(s0, s, h, clock) && !a.Begin? && !a.Finish? && !a.QueryKeys? && !a.QueryLegacy?
    ensures QuietSince(s0, Step(s, a), h, clock)
  {
    DeadStep(s, a, h);
  }

  lemma QuietStep(s0: State, s: State, a: Action, h: string, clock: Option<int>)
    requires QuietSince(s0, s, h, clock) && OnTime(clock, [a])
    ensures QuietSince(s0, Step(s, a), h, Later(clock, a))
  {
    match a
    case Begin(g, now) => QuietBegin(s0, s, g, now, h, clock);
    case QueryKeys(i) => QuietQuery(s0, s, i, h, clock);
    case QueryLegacy(i) => QuietQuery(s0, s, i, h, clock);
    case Finish(i, now) => QuietFinish(s0, s, i, now, h, clock);
    case _ => QuietOther(s0, s, a, h, clock);
  }

  lemma {:induction false} QuietRun(s0: State, s: State, acts: seq<Action>, h: string, clock: Option<int>)
    requires QuietSince(s0, s, h, clock) && OnTime(clock, acts)
    ensures QuietSince(s0, Run(s, acts), h, LaterAll(clock, acts))
    decreases acts
  {
    if acts != [] {
      QuietStep(s0, s, acts[0], h, clock);
      QuietRun(s0, Step(s, acts[0]), acts[1..], h, Later(clock, acts[0]));
    }
  }

  lemma RunOne(s: State, a: Action)
    ensures Run(s, [a]) == Step(s, a)
  {
    assert Run(s, [a]) == Run(Step(s, a), [a][1..]);
  }

  lemma FreshEntryAnswers(s: State, h: string, clock: Option<int>)
    requires !NoFreshEntry(s, h, clock)
    ensures !Final(s, h, clock)
  {
    var a := Begin(h, if clock.Some? then clock.value else s.cache[h].entry.at);
    RunOne(s, a);
    assert OnTime(clock, [a]) && Answered(Run(s, [a]).lookups[|s.lookups|], h);
  }

  lemma HeldAnswerAnswers(s: State, i: nat, h: string, clock: Option<int>)
    requires i < |s.lookups| && s.lookups[i].hash == h && s.lookups[i].phase.Holding?
    ensures !Final(s, h, clock)
  {
    var now := if clock.Some? then clock.value else 0;
    var a, b := Finish(i, now), Begin(h, now);
    assert [a, b][1..] == [b];
    RunOne(Step(s, a), b);
    assert OnTime(Later(clock, a), [b]) && OnTime(clock, [a, b]);
    assert Run(s, [a, b]) == Run(Step(s, a), [b]) == Step(Step(s, a), b);
    assert Answered(Run(s, [a, b]).lookups[|s.lookups|], h);
  }

  /** For a hash that is dead in the tables, no later lookup is ever answered if and only if no lookup in flight holds an
      answer and nothing is cached for it: on a clock that may go back nothing at all, on one that never does nothing
      younger than the TTL. */
  lemma FinalIff(s: State, h: string, clock: Option<int>)
    requires Dead(s.tables, h)
    ensures Final(s, h, clock) <==> Quiet(s, h, clock)
  {
    if Quiet(s, h, clock) {
      forall acts: seq<Action>, i: nat | OnTime(clock, acts) && |s.lookups| <= i < |Run(s, acts).lookups|
        ensures !Answered(Run(s, acts).lookups[i], h)
      {
        QuietRun(s, s, acts, h, clock);
      }
    } else if !NoFreshEntry(s, h, clock) {
      FreshEntryAnswers(s, h, clock);
    } else {
      var i :| 0 <= i < |s.lookups| && s.lookups[i].hash == h && s.lookups[i].phase.Holding?;
      HeldAnswerAnswers(s, i, h, clock);
    }
  }

  /** In every interleaving a completed revoke is final if and only if, when it clears the legacy column, nothing fresh is
      cached for the hash and no lookup of it is waiting to store what it read. */
  lemma RevokeIsFinalIff(before: seq<Action>, j: nat, clock: Option<int>)
    requires AtProgress(Run(EMPTY, before), j, Evicted)
    ensures var s := Run(EMPTY, before);
            Final(Step(s, RevokeClear(j)), s.revokes[j].hash, clock) <==> Quiet(s, s.revokes[j].hash, clock)
  {
    var s := Run(EMPTY, before);
    CompletedRevokeKills(before, j);
    FinalIff(Step(s, RevokeClear(j)), s.revokes[j].hash, clock);
  }

  // ---- what can happen between eviction and clearing ----

  /** Whatever runs between now and the clearing, the revoke will be final. */
  ghost predicate SurelyFinal(s: State, j: nat, h: string, clock: Option<int>) {
    forall during: seq<Action> :: OnTime(clock, during) && AtProgress(Run(s, during), j, Evicted) ==>
      Final(Step(Run(s, during), RevokeClear(j)), h, LaterAll(clock, during))
  }

  /** The rows of the hash are all revoked, but a workspace still carries it in the legacy column. */
  ghost predicate HalfRevoked(s: State, w: string, h: string) {
    HoldsLegacy(s.tables, w, h) && forall k :: k in s.tables.keys && s.tables.keys[k].hash == h ==> s.tables.keys[k].revoked
  }

  /** Then a lookup that begins now, with nothing fresh cached, ends up holding an answer once the workspace is active. */
  lemma LegacyIsRead(s: State, w: string, h: string, now: int) returns (during: seq<Action>)
    requires HalfRevoked(s, w, h) && (h in s.cache ==> now - s.cache[h].entry.at >= TTL)
    ensures during == [Change(DoSetWorkspace(w, "", true)), Begin(h, now), QueryKeys(|s.lookups|), QueryLegacy(|s.lookups|)]
    ensures var e := Run(s, during);
            e.revokes == s.revokes && |e.lookups| == |s.lookups| + 1
            && e.lookups[|s.lookups|].hash == h && e.lookups[|s.lookups|].phase.Holding?
  {
    var n := |s.lookups|;
    during := [Change(DoSetWorkspace(w, "", true)), Begin(h, now), QueryKeys(n), QueryLegacy(n)];
    RunFour(s, during[0], during[1], during[2], during[3]);
    var s1 := Step(s, during[0]);
    assert HoldsLegacy(s1.tables, w, h) && s1.tables.workspaces[w].active;
    assert s1 == s.(tables := s1.tables);
    var s2 := BeginStep(s1, h, now);
    assert s2.lookups[n] == LookupTask(h, Asking) && s2.tables == s1.tables && s2.revokes == s.revokes;
    assert ReadKeys(s1.tables, h) == None;
    var s3 := QueryKeysStep(s2, n);
    assert s3.lookups[n] == LookupTask(h, Missed) && s3.tables == s1.tables && s3.revokes == s.revokes;
  }

  lemma OneReadingOnTime(a: Action, b: Action, c: Action, d: Action, clock: Option<int>)
    requires a.Change? && b.Begin? && c.QueryKeys? && d.QueryLegacy? && (clock.Some? ==> b.now == clock.value)
    ensures OnTime(clock, [a, b, c, d])
  {
    assert [a, b, c, d][1..] == [b, c, d] && [b, c, d][1..] == [c, d] && [c, d][1..] == [d] && [d][1..] == [];
    assert OnTime(clock, [d]) && OnTime(clock, [c, d]) && OnTime(clock, [b, c, d]);
  }

  lemma UnquietIsNotSure(before: seq<Action>, j: nat, during: seq<Action>, clock: Option<int>)
    requires AtProgress(Run(EMPTY, before), j, Evicted) && OnTime(clock, during)
    requires AtProgress(Run(Run(EMPTY, before), during), j, Evicted)
    requires !Quiet(Run(Run(EMPTY, before), during), Run(EMPTY, before).revokes[j].hash, LaterAll(clock, during))
    ensures !SurelyFinal(Run(EMPTY, before), j, Run(EMPTY, before).revokes[j].hash, clock)
  {
    RunConcat(EMPTY, before, during);
    TaskKeepsHash(Run(EMPTY, before), during, j);
    RevokeIsFinalIff(before + during, j, LaterAll(clock, during));
  }

  /** Right after the eviction, or at any moment up to the clearing: the revoke is sure to be final, whatever runs in
      between, if and only if no legacy column carries the hash, nothing fresh is cached for it and no lookup of it holds
      an answer. A key created by the key endpoint, with none of its lookups in flight, is revoked at once; a backfilled
      key never surely is. */
  lemma SurelyFinalIff(before: seq<Action>, j: nat, clock: Option<int>)
    requires AtProgress(Run(EMPTY, before), j, Evicted)
    ensures var s := Run(EMPTY, before);
            var h := s.revokes[j].hash;
            SurelyFinal(s, j, h, clock) <==> Quiet(s, h, clock) && forall w :: !HoldsLegacy(s.tables, w, h)
  {
    var s := Run(EMPTY, before);
    var h := s.revokes[j].hash;
    AlwaysSound(EMPTY, before);
    assert RevokeKnows(s.tables, s.revokes[j]);
    if !Quiet(s, h, clock) {
      UnquietIsNotSure(before, j, [], clock);
    } else if w :| HoldsLegacy(s.tables, w, h) {
      LegacyIsNotSure(before, j, w, clock);
    } else {
      assert Dead(s.tables, h);
      forall during: seq<Action> | OnTime(clock, during) && AtProgress(Run(s, during), j, Evicted)
        ensures Final(Step(Run(s, during), RevokeClear(j)), h, LaterAll(clock, during))
      {
        QuietRun(s, s, during, h, clock);
        RunConcat(EMPTY, before, during);
        TaskKeepsHash(s, during, j);
        RevokeIsFinalIff(before + during, j, LaterAll(clock, during));
      }
    }
  }

  lemma LegacyIsNotSure(before: seq<Action>, j: nat, w: string, clock: Option<int>)
    requires AtProgress(Run(EMPTY, before), j, Evicted)
    requires HalfRevoked(Run(EMPTY, before), w, Run(EMPTY, before).revokes[j].hash)
    requires NoFreshEntry(Run(EMPTY, before), Run(EMPTY, before).revokes[j].hash, clock)
    ensures !SurelyFinal(Run(EMPTY, before), j, Run(EMPTY, before).revokes[j].hash, clock)
  {
    var s := Run(EMPTY, before);
    var h := s.revokes[j].hash;
    var during := LegacyIsRead(s, w, h, if clock.Some? then clock.value else 0);
    OneReadingOnTime(during[0], during[1], during[2], during[3], clock);
    UnquietIsNotSure(before, j, during, clock);
  }

  // ---- stale answers end ----

  /** No lookup is left holding an answer for the hash, and its entry, if any, dates from `t` or earlier. */
  ghost predicate Settled(s: State, h: string, t: int) {
    Dead(s.tables, h) && (h in s.cache ==> s.cache[h].entry.at <= t)
    && forall i :: 0 <= i < |s.lookups| && s.lookups[i].hash == h ==> !s.lookups[i].phase.Holding?
  }

  lemma SettledStep(s: State, a: Action, h: string, t: int)
    requires Settled(s, h, t)
    ensures Settled(Step(s, a), h, t)
  {
    DeadStep(s, a, h);
    DeadIsNotRead(s.tables, h);
  }

  lemma {:induction false} SettledRun(s: State, acts: seq<Action>, h: string, t: int)
    requires Settled(s, h, t)
    ensures Settled(Run(s, acts), h, t)
    decreases acts
  {
    if acts != [] {
      SettledStep(s, acts[0], h, t);
      SettledRun(Step(s, acts[0]), acts[1..], h, t);
    }
  }

  /** Once the lookups that were holding an answer have stored it, the last at `t`, every lookup begun one TTL later
      misses the cache and will be refused by the tables. */
  lemma StaleAnswersEnd(s: State, acts: seq<Action>, h: string, t: int, now: int)
    requires Settled(s, h, t) && now >= t + TTL
    ensures var s' := Step(Run(s, acts), Begin(h, now));
            s'.lookups[|s'.lookups| - 1] == LookupTask(h, Asking) && h !in s'.cache
            && ReadKeys(s'.tables, h).None? && ReadLegacy(s'.tables, h).None?
  {
    SettledRun(s, acts, h, t);
    DeadIsNotRead(Run(s, acts).tables, h);
  }

  // ---- uninterrupted, the steps are the atomic handlers ----

  /** The state as the atomic service has it. */
  function Service(s: State): ApiKeyStore.Service {
    ApiKeyStore.Service(s.tables, map h | h in s.cache :: s.cache[h].entry)
  }

  function AnswerOf(l: LookupTask): Option<Found> {
    match l.phase
    case ReadAnswer(f) => Some(f)
    case CacheAnswer(hit, _) => Some(hit.entry.found)
    case _ => None
  }

  /** A lookup that nothing interrupts answers and leaves the cache as the atomic one does. */
  lemma UninterruptedLookup(s: State, h: string, now: int)
    ensures var n := |s.lookups|;
            var e := Run(s, [Begin(h, now), QueryKeys(n), QueryLegacy(n), Finish(n, now)]);
            Service(e) == After(Service(s), Lookup(h, now)) && |e.lookups| == n + 1 &&
            AnswerOf(e.lookups[n]) == Answer(Service(s), h, now)
  {
    var n := |s.lookups|;
    RunFour(s, Begin(h, now), QueryKeys(n), QueryLegacy(n), Finish(n, now));
    var s1 := BeginStep(s, h, now);
    if Fresh(Service(s).cache, h, now) {
      assert QueryKeysStep(s1, n) == s1 && QueryLegacyStep(s1, n) == s1 && FinishStep(s1, n, now) == s1;
    } else {
      UninterruptedMiss(s, h, now);
    }
  }

  lemma UninterruptedMiss(s: State, h: string, now: int)
    requires !Fresh(Service(s).cache, h, now)
    ensures var n := |s.lookups|;
            var e := FinishStep(QueryLegacyStep(QueryKeysStep(BeginStep(s, h, now), n), n), n, now);
            Service(e) == After(Service(s), Lookup(h, now)) && |e.lookups| == n + 1 &&
            AnswerOf(e.lookups[n]) == Answer(Service(s), h, now)
  {
    var n := |s.lookups|;
    var s1 := BeginStep(s, h, now);
    assert s1.lookups == s.lookups + [LookupTask(h, Asking)] && s1.tables == s.tables && s1.cache == s.cache - {h};
    var s2 := QueryKeysStep(s1, n);
    var s3 := QueryLegacyStep(s2, n);
    var r := ReadTables(s.tables, h);
    assert s3.tables == s.tables && s3.cache == s1.cache && |s3.lookups| == n + 1;
    assert s3.lookups[n] == LookupTask(h, if r.Some? then Holding(r.value) else Refused);
  }

  /** A revoke that nothing interrupts does what the atomic one does. */
  lemma UninterruptedRevoke(s: State, k: string, w: string, viewer: Option<string>)
    ensures var n := |s.revokes|;
            Service(Run(s, [RevokeMark(k, w, viewer), RevokeEvict(n), RevokeClear(n)])) == After(Service(s), Revoke(k, w, viewer))
  {
    var n := |s.revokes|;
    RunThree(s, RevokeMark(k, w, viewer), RevokeEvict(n), RevokeClear(n));
    if Addressed(s.tables, k, w, viewer) {
      var h := s.tables.keys[k].hash;
      var s1 := RevokeMarkStep(s, k, w, viewer);
      assert s1.revokes[n] == RevokeTask(k, w, h, Marked);
      var s2 := RevokeEvictStep(s1, n);
      assert s2.revokes[n] == RevokeTask(k, w, h, Evicted) && s2.cache == s.cache - {h} && s2.tables == s1.tables;
      assert Service(s2).cache == Service(s).cache - {h};
    }
  }

  lemma UninterruptedPause(s: State, k: string, w: string, viewer: Option<string>)
    ensures Service(PauseEvictStep(PauseMarkStep(s, k, w, viewer), |s.pauses|)) == After(Service(s), Pause(k, w, viewer))
  {
    if Addressed(s.tables, k, w, viewer) {
      var h := s.tables.keys[k].hash;
      var s1 := PauseMarkStep(s, k, w, viewer);
      assert s1.pauses[|s.pauses|] == h;
      assert Service(PauseEvictStep(s1, |s.pauses|)).cache == Service(s).cache - {h};
    }
  }

  // ---- the race is real ----

  const MARKED := Tables(map["k" := KeyRow("w", "h", "Primary", true, false, None)], map["w" := Workspace("free", true, Some("h"))])
  const LEGACY_ANSWER := Found("w", "free", None)

  lemma MarkedReads()
    ensures ReadKeys(MARKED, "h") == None && ReadLegacy(MARKED, "h") == Some(LEGACY_ANSWER)
  {
    assert HoldsLegacy(MARKED, "w", "h");
    assert forall w :: HoldsLegacy(MARKED, w, "h") ==> w == "w";
  }

  /** A legacy key that has been backfilled and whose row a revoke has just marked. */
  lemma MarkedExample() returns (before: seq<Action>)
    ensures Run(EMPTY, before) == State(MARKED, map[], [], [RevokeTask("k", "w", "h", Marked)], [])
  {
    before := [Change(DoSignUp("w", "h")), Change(DoBackfill("w", "k")), RevokeMark("k", "w", None)];
    RunThree(EMPTY, before[0], before[1], before[2]);
    var s1 := Step(EMPTY, before[0]);
    assert s1.tables == Tables(map[], map["w" := Workspace("free", true, Some("h"))]);
    var s2 := Step(s1, before[1]);
    assert s2.tables == Tables(map["k" := KeyRow("w", "h", "Primary", false, false, None)], s1.tables.workspaces);
  }

  /** A whole lookup that runs while the legacy column still carries the hash. */
  lemma RacerExample(se: State) returns (during: seq<Action>)
    requires se.tables == MARKED && se.cache == map[] && se.lookups == []
    ensures Run(se, during)
         == se.(cache := map["h" := Stamped(Entry(LEGACY_ANSWER, 0), 0)], lookups := [LookupTask("h", ReadAnswer(LEGACY_ANSWER))])
  {
    during := [Begin("h", 0), QueryKeys(0), QueryLegacy(0), Finish(0, 0)];
    RunFour(se, Begin("h", 0), QueryKeys(0), QueryLegacy(0), Finish(0, 0));
    MarkedReads();
    var s1 := BeginStep(se, "h", 0);
    assert s1 == se.(lookups := [LookupTask("h", Asking)]);
    var s2 := QueryKeysStep(s1, 0);
    assert s2 == se.(lookups := [LookupTask("h", Missed)]);
    var s3 := QueryLegacyStep(s2, 0);
    assert s3 == se.(lookups := [LookupTask("h", Holding(LEGACY_ANSWER))]);
  }

  lemma RunFour(s: State, a: Action, b: Action, c: Action, d: Action)
    ensures Run(s, [a, b, c, d]) == Step(Step(Step(Step(s, a), b), c), d)
  {
    RunThree(Step(s, a), b, c, d);
    assert [a, b, c, d][1..] == [b, c, d];
  }

  lemma RunThree(s: State, a: Action, b: Action, c: Action)
    ensures Run(s, [a, b, c]) == Step(Step(Step(s, a), b), c)
  {
    var s' := Step(Step(s, a), b);
    assert [a, b, c][1..] == [b, c] && [b, c][1..] == [c] && [c][1..] == [];
    assert Run(s', [c]) == Run(Step(s', c), []);
  }

  /** Between eviction and clearing, even a lookup that begins after the eviction and ends before the clearing
      leaves an entry that answers after the revoke has completed. */
  lemma RevokeCanLeaveAnEntry() returns (before: seq<Action>, during: seq<Action>)
    ensures AtProgress(Run(EMPTY, before), 0, Marked)
    ensures var se := RevokeEvictStep(Run(EMPTY, before), 0);
            se.lookups == [] && se.cache == map[] && HadStored(Run(se, during), 0)
    ensures var s0 := RevokeClearStep(Run(RevokeEvictStep(Run(EMPTY, before), 0), during), 0);
            var s1 := BeginStep(s0, "h", TTL - 1);
            AtProgress(s0, 0, Completed) && |s1.lookups| == 2 && s1.lookups[1].phase.CacheAnswer?
  {
    before := MarkedExample();
    var se := RevokeEvictStep(Run(EMPTY, before), 0);
    during := RacerExample(se);
  }
}
