/** The daily spend cache in front of the request table, within one local day. */
module SpendCache {
  import opened Options
  import opened Totals

  /** A request row: what it cost its key label, and when it was written. */
  datatype Charge = Charge(tag: string, cost: real, at: real)

  function CostTo(tag: string): Charge -> real {
    (c: Charge) => if c.tag == tag then c.cost else 0.0
  }

  /** Today's stored spend of a key label. */
  function Spent(ledger: seq<Charge>, tag: string): real {
    Total(ledger, CostTo(tag))
  }

  /** Only the label's own rows count, each with its cost. */
  lemma SpentIsOwnCosts(ledger: seq<Charge>, c: Charge, tag: string)
    ensures Spent([], tag) == 0.0 && Spent(ledger + [c], tag) == Spent(ledger, tag) + if c.tag == tag then c.cost else 0.0
  {
    TotalAppend(ledger, c, CostTo(tag));
  }

  /** The cap check: refuse once the spend has reached the cap. */
  predicate Blocks(spent: real, cap: Option<real>) {
    cap.Some? && spent >= cap.value
  }

  // ---- runs, with the query outside the lock ----

  /** A read of the table: the value, the rows it saw and the clock at that instant. */
  datatype Reading = Reading(value: real, rows: nat, at: real)

  /** A cached reading and when it was stored. */
  datatype Entry = Entry(reading: Reading, storedAt: real)

  datatype State = State(ledger: seq<Charge>, data: map<string, Entry>, readers: seq<(string, Reading)>, clock: real)

  /** Each action carries the clock; readings that go back in time are not taken. */
  datatype Action =
    | Record(tag: string, cost: real, now: real)
    | Query(tag: string, now: real)
    | Store(i: nat, now: real)
    | Drop(tag: string, now: real)
    | DropAll(now: real)

  function Step(s: State, a: Action): State {
    if a.now < s.clock then s
    else
      var s := s.(clock := a.now);
      match a
      case Record(tag, cost, now) => if cost >= 0.0 then s.(ledger := s.ledger + [Charge(tag, cost, now)]) else s
      case Query(tag, now) => s.(readers := s.readers + [(tag, Reading(Spent(s.ledger, tag), |s.ledger|, now))])
      case Store(i, now) =>
        if i >= |s.readers| then s
        else s.(data := s.data[s.readers[i].0 := Entry(s.readers[i].1, now)], readers := s.readers[..i] + s.readers[i + 1..])
      case Drop(tag, _) => s.(data := s.data - {tag})
      case DropAll(_) => s.(data := map[])
  }

  function Run(s: State, acts: seq<Action>): State
    decreases acts
  {
    if acts == [] then s else Run(Step(s, acts[0]), acts[1..])
  }

  function Start(clock: real): State {
    State([], map[], [], clock)
  }

  /** The reading is the stored spend of that instant: the rows it saw were written by then, all others since. */
  ghost predicate Truthful(ledger: seq<Charge>, tag: string, r: Reading) {
    r.rows <= |ledger| && r.value == Spent(ledger[..r.rows], tag)
    && (forall i :: 0 <= i < r.rows ==> ledger[i].at <= r.at)
    && (forall i :: r.rows <= i < |ledger| ==> ledger[i].at >= r.at)
  }

  ghost predicate Sound(s: State) {
    (forall i :: 0 <= i < |s.ledger| ==> s.ledger[i].cost >= 0.0 && s.ledger[i].at <= s.clock)
    && (forall i :: 0 <= i < |s.readers| ==> ReaderSound(s, s.readers[i].0, s.readers[i].1))
    && (forall l :: l in s.data ==> ReaderSound(s, l, s.data[l].reading) && s.data[l].reading.at <= s.data[l].storedAt <= s.clock)
  }

  ghost predicate ReaderSound(s: State, tag: string, r: Reading) {
    Truthful(s.ledger, tag, r) && r.at <= s.clock
  }

  lemma TruthfulAfterCharge(ledger: seq<Charge>, c: Charge, tag: string, r: Reading)
    requires Truthful(ledger, tag, r) && c.at >= r.at
    ensures Truthful(ledger + [c], tag, r)
  {
    assert (ledger + [c])[..r.rows] == ledger[..r.rows];
  }

  lemma NewReadingIsTruthful(ledger: seq<Charge>, tag: string, now: real)
    requires forall i :: 0 <= i < |ledger| ==> ledger[i].at <= now
    ensures Truthful(ledger, tag, Reading(Spent(ledger, tag), |ledger|, now))
  {
    assert ledger[..|ledger|] == ledger;
  }

  lemma ReaderStays(s: State, a: Action, tag: string, r: Reading)
    requires ReaderSound(s, tag, r)
    ensures ReaderSound(Step(s, a), tag, r)
  {
    if a.Record? && a.now >= s.clock {
      TruthfulAfterCharge(s.ledger, Charge(a.tag, a.cost, a.now), tag, r);
    }
  }

  lemma SoundStep(s: State, a: Action)
    requires Sound(s)
    ensures Sound(Step(s, a))
  {
    var s' := Step(s, a);
    if a.Query? {
      NewReadingIsTruthful(s.ledger, a.tag, if a.now >= s.clock then a.now else s.clock);
    }
    forall i | 0 <= i < |s.readers|
      ensures ReaderSound(s', s.readers[i].0, s.readers[i].1)
    {
      ReaderStays(s, a, s.readers[i].0, s.readers[i].1);
    }
    forall l | l in s'.data
      ensures ReaderSound(s', l, s'.data[l].reading) && s'.data[l].reading.at <= s'.data[l].storedAt <= s'.clock
    {
      if l in s.data && s'.data[l] == s.data[l] {
        ReaderStays(s, a, l, s.data[l].reading);
      } else {
        assert a.Store? && s'.data[l].reading == s.readers[a.i].1;
      }
    }
  }

  lemma {:induction false} AlwaysSound(s: State, acts: seq<Action>)
    requires Sound(s)
    ensures Sound(Run(s, acts))
    decreases acts
  {
    if acts != [] {
      SoundStep(s, acts[0]);
      AlwaysSound(Step(s, acts[0]), acts[1..]);
    }
  }

  predicate Fresh(s: State, tag: string, now: real, ttl: real) {
    tag in s.data && now - s.data[tag].storedAt < ttl
  }

  /** Every query stores its reading within `d` of making it. */
  predicate StoresWithin(s: State, acts: seq<Action>, d: real)
    decreases acts
  {
    acts == [] ||
    ((acts[0].Store? && acts[0].i < |s.readers| && acts[0].now >= s.clock ==> acts[0].now - s.readers[acts[0].i].1.at <= d)
     && StoresWithin(Step(s, acts[0]), acts[1..], d))
  }

  ghost predicate Prompt(s: State, d: real) {
    forall l :: l in s.data ==> s.data[l].storedAt - s.data[l].reading.at <= d
  }

  lemma {:induction false} EntriesArePrompt(s: State, acts: seq<Action>, d: real)
    requires Prompt(s, d) && StoresWithin(s, acts, d)
    ensures Prompt(Run(s, acts), d)
    decreases acts
  {
    if acts != [] {
      EntriesArePrompt(Step(s, acts[0]), acts[1..], d);
    }
  }

  /** In every run whose queries take at most `d` to store what they read, a fresh cached value is the stored spend
      of an instant less than `ttl + d` ago: less than one TTL when reading and storing are one step. */
  lemma CachedValueIsRecent(clock: real, acts: seq<Action>, tag: string, now: real, ttl: real, d: real)
    requires StoresWithin(Start(clock), acts, d) && Fresh(Run(Start(clock), acts), tag, now, ttl)
    ensures var s := Run(Start(clock), acts);
            Truthful(s.ledger, tag, s.data[tag].reading) && now - s.data[tag].reading.at < ttl + d
  {
    AlwaysSound(Start(clock), acts);
    EntriesArePrompt(Start(clock), acts, d);
  }

  /** No smaller bound holds: with latency `d` a reading made at 0 is still served at any `age` below `ttl + d`. */
  lemma AgesAreAttained(tag: string, ttl: real, d: real, age: real) returns (acts: seq<Action>)
    requires d >= 0.0 && ttl > 0.0 && 0.0 <= age < ttl + d
    ensures StoresWithin(Start(0.0), acts, d) && Fresh(Run(Start(0.0), acts), tag, age, ttl)
    ensures Run(Start(0.0), acts).data[tag].reading.at == 0.0
  {
    var storedAt := if age < d then age else d;
    acts := [Query(tag, 0.0), Store(0, storedAt)];
    var s0 := Start(0.0);
    var s1 := Step(s0, acts[0]);
    var s2 := Step(s1, acts[1]);
    assert acts[1..] == [Store(0, storedAt)] && acts[1..][1..] == [];
    assert Run(s0, acts) == Run(s1, acts[1..]) == Run(s2, []) == s2;
    assert StoresWithin(s1, acts[1..], d);
  }

  lemma SpendGrows(ledger: seq<Charge>, tag: string, n: nat)
    requires n <= |ledger| && forall i :: 0 <= i < |ledger| ==> ledger[i].cost >= 0.0
    ensures Spent(ledger[..n], tag) <= Spent(ledger, tag)
  {
    assert ledger == ledger[..n] + ledger[n..];
    TotalConcat(ledger[..n], ledger[n..], CostTo(tag));
    TotalNonnegative(ledger[n..], CostTo(tag));
  }

  /** A value a caller may be handed: that of the cache, or that of its own query. */
  ghost predicate Given(s: State, tag: string, r: Reading) {
    (tag in s.data && s.data[tag].reading == r) || exists i :: 0 <= i < |s.readers| && s.readers[i] == (tag, r)
  }

  /** Enforcement on a value from the cache or from one's own query never refuses what reading the table at the moment
      of the decision would let through. */
  lemma CacheNeverBlocksEarly(clock: real, acts: seq<Action>, tag: string, r: Reading, cap: Option<real>)
    requires Given(Run(Start(clock), acts), tag, r) && Blocks(r.value, cap)
    ensures Blocks(Spent(Run(Start(clock), acts).ledger, tag), cap)
  {
    AlwaysSound(Start(clock), acts);
    SpendGrows(Run(Start(clock), acts).ledger, tag, r.rows);
  }

  /** When the cache lets through what the table would refuse, the cap was reached only by charges written less than
      `ttl + d` ago. */
  lemma LateBlocksAreRecent(clock: real, acts: seq<Action>, tag: string, now: real, ttl: real, d: real, cap: Option<real>)
    requires StoresWithin(Start(clock), acts, d) && Fresh(Run(Start(clock), acts), tag, now, ttl)
    requires !Blocks(Run(Start(clock), acts).data[tag].reading.value, cap) && Blocks(Spent(Run(Start(clock), acts).ledger, tag), cap)
    ensures var s := Run(Start(clock), acts);
            var rows := s.data[tag].reading.rows;
            rows < |s.ledger| && !Blocks(Spent(s.ledger[..rows], tag), cap) &&
            forall i :: rows <= i < |s.ledger| ==> now - s.ledger[i].at < ttl + d
  {
    CachedValueIsRecent(clock, acts, tag, now, ttl, d);
    var s := Run(Start(clock), acts);
    assert s.ledger[..|s.ledger|] == s.ledger;
  }

  // ---- the cache object ----

  /** What the dictionary holds of a state: value and time of storing. */
  function View(data: map<string, Entry>): map<string, (real, real)> {
    map l | l in data :: (data[l].reading.value, data[l].storedAt)
  }

  class Cache {
    const ttl: real
    var data: map<string, (real, real)>

    constructor (ttl: real, clock: real)
      ensures this.ttl == ttl && Shows(Start(clock))
    {
      this.ttl, data := ttl, map[];
    }

    /** The dictionary is that of the state `s`. */
    ghost predicate Shows(s: State)
      reads this
    {
      data == View(s.data)
    }

    /** A fresh entry answers with the reading it holds and nothing changes; otherwise the call is one query at
        `queried` and its store at `later`, and answers with what the query read. `stored` is the table's answer. */
    method GetTodaySpend(ghost s: State, tag: string, now: real, stored: real, queried: real, later: real) returns (spent: real)
      requires Shows(s) && s.clock <= now <= queried <= later && stored == Spent(s.ledger, tag)
      modifies this`data
      ensures Fresh(s, tag, now, ttl) <==> tag in old(data) && now - old(data)[tag].1 < ttl
      ensures tag in old(data) && now - old(data)[tag].1 < ttl ==> spent == old(data)[tag].0 && data == old(data)
      ensures !(tag in old(data) && now - old(data)[tag].1 < ttl) ==> spent == stored && data == old(data)[tag := (stored, later)]
      ensures Fresh(s, tag, now, ttl) ==> spent == s.data[tag].reading.value && Shows(s)
      ensures !Fresh(s, tag, now, ttl) ==>
              Shows(Run(s, [Query(tag, queried), Store(|s.readers|, later)])) && spent == Spent(s.ledger, tag)
    {
      if tag in data && now - data[tag].1 < ttl {
        return data[tag].0;
      }
      spent := stored;
      data := data[tag := (spent, later)];
      QueryThenStore(s, tag, queried, later);
    }

    method Invalidate(ghost s: State, tag: string)
      requires Shows(s)
      modifies this`data
      ensures data == old(data) - {tag}
      ensures Shows(Step(s, Drop(tag, s.clock)))
    {
      data := data - {tag};
    }

    method Clear(ghost s: State)
      requires Shows(s)
      modifies this`data
      ensures data == map[]
      ensures Shows(Step(s, DropAll(s.clock)))
    {
      data := map[];
    }

    /** Without a label or a cap nothing is read. A refusal is one the table itself would give at that moment, and
        names the value it was based on; a request passes against the table only on a fresh entry. */
    method EnforceDailyCap(ghost s: State, tag: string, cap: Option<real>, now: real, stored: real, queried: real, later: real)
      returns (refusal: Option<(real, real)>)
      requires Shows(s) && Sound(s) && s.clock <= now <= queried <= later && stored == Spent(s.ledger, tag)
      modifies this`data
      ensures tag == "" || cap.None? ==> refusal == None && Shows(s) && data == old(data)
      ensures tag != "" && cap.Some? ==>
              var spent := if tag in old(data) && now - old(data)[tag].1 < ttl then old(data)[tag].0 else stored;
              refusal == if spent >= cap.value then Some((spent, cap.value)) else None
      ensures refusal.Some? ==> Blocks(Spent(s.ledger, tag), cap) && refusal.value.1 == cap.value && Blocks(refusal.value.0, cap)
      ensures tag != "" && refusal.None? && Blocks(Spent(s.ledger, tag), cap) ==>
              Fresh(s, tag, now, ttl) && !Blocks(s.data[tag].reading.value, cap)
      ensures tag != "" && cap.Some? ==>
              Shows(if Fresh(s, tag, now, ttl) then s else Run(s, [Query(tag, queried), Store(|s.readers|, later)]))
    {
      if tag == "" || cap.None? {
        return None;
      }
      var spent := GetTodaySpend(s, tag, now, stored, queried, later);
      if Fresh(s, tag, now, ttl) {
        SpendGrows(s.ledger, tag, s.data[tag].reading.rows);
      }
      return if spent >= cap.value then Some((spent, cap.value)) else None;
    }
  }

  /** Uninterrupted, a query and its store add one entry and leave everything else. */
  lemma QueryThenStore(s: State, tag: string, queried: real, later: real)
    requires s.clock <= queried <= later
    ensures Run(s, [Query(tag, queried), Store(|s.readers|, later)]) ==
            s.(data := s.data[tag := Entry(Reading(Spent(s.ledger, tag), |s.ledger|, queried), later)], clock := later)
  {
    var n, a, b := |s.readers|, Query(tag, queried), Store(|s.readers|, later);
    var s1 := Step(s, a);
    var s2 := Step(s1, b);
    assert [a, b][1..] == [b] && [b][1..] == [];
    assert Run(s, [a, b]) == Run(s1, [b]) == Run(s2, []) == s2;
    assert s1.readers[..n] + s1.readers[n + 1..] == s.readers;
  }
}
