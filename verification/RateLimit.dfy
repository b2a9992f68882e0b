/** The sliding-window limiter against the full history of what it admitted. */
module RateLimit {
  import opened Options

  /** A bucket key: the prefix of the rule that matched, and the client address. */
  datatype Key = Key(prefix: string, client: string)
  datatype Rule = Rule(prefix: string, most: int, window: int)
  type Buckets = map<Key, seq<int>>

  function Bucket(b: Buckets, k: Key): seq<int> {
    if k in b then b[k] else []
  }

  /** `popleft` while the oldest entry is before the cutoff. */
  function Prune(d: seq<int>, cutoff: int): seq<int> {
    if d != [] && d[0] < cutoff then Prune(d[1..], cutoff) else d
  }

  class SlidingWindowLimiter {
    var buckets: Buckets

    constructor ()
      ensures buckets == map[]
    {
      buckets := map[];
    }

    method Check(key: Key, most: int, window: int, now: int) returns (ok: bool)
      modifies this
      ensures ok <==> Grants(old(buckets), Request(key, most, window, now))
      ensures buckets == Checked(old(buckets), key, most, window, now)
    {
      var cutoff := now - window;
      var bucket := Bucket(buckets, key);
      while bucket != [] && bucket[0] < cutoff
        invariant Prune(bucket, cutoff) == Prune(Bucket(old(buckets), key), cutoff)
        decreases |bucket|
      {
        bucket := bucket[1..];
      }
      buckets := buckets[key := bucket];
      if |bucket| >= most {
        return false;
      }
      buckets := buckets[key := bucket + [now]];
      return true;
    }
  }

  /** The limiter's state after one check; a refusal still leaves the bucket pruned. */
  function Checked(b: Buckets, k: Key, most: int, window: int, now: int): Buckets {
    var d := Prune(Bucket(b, k), now - window);
    b[k := if |d| < most then d + [now] else d]
  }

  datatype Request = Request(key: Key, most: int, window: int, now: int)

  /** What the deque answers. */
  predicate Grants(b: Buckets, r: Request) {
    |Prune(Bucket(b, r.key), r.now - r.window)| < r.most
  }

  function AfterRequest(b: Buckets, r: Request): Buckets {
    Checked(b, r.key, r.most, r.window, r.now)
  }

  function GrantNow(b: Buckets, r: Request, k: Key): seq<int> {
    if r.key == k && Grants(b, r) then [r.now] else []
  }

  /** The times at which the deque, starting from `b`, admits requests of a key. */
  function GrantedTimes(b: Buckets, rs: seq<Request>, k: Key): seq<int>
    decreases rs
  {
    if rs == [] then []
    else
      GrantNow(b, rs[0], k) + GrantedTimes(AfterRequest(b, rs[0]), rs[1..], k)
  }

  // ---- the reference: count the whole admission history ----

  /** Every admission time of every key; nothing is ever dropped. */
  type History = map<Key, seq<int>>

  function KeyTimes(h: History, k: Key): seq<int> {
    if k in h then h[k] else []
  }

  /** How many of the times lie in the closed interval. */
  function Count(ts: seq<int>, lo: int, hi: int): nat {
    if ts == [] then 0 else Count(ts[..|ts| - 1], lo, hi) + if lo <= ts[|ts| - 1] <= hi then 1 else 0
  }

  predicate Admits(h: History, r: Request) {
    Count(KeyTimes(h, r.key), r.now - r.window, r.now) < r.most
  }

  function Extend(h: History, r: Request): History {
    if Admits(h, r) then h[r.key := KeyTimes(h, r.key) + [r.now]] else h
  }

  /** The limiter beside the history of everything admitted; each is judged by its own rule. */
  datatype State = State(buckets: Buckets, history: History)

  const EMPTY := State(map[], map[])

  function Next(s: State, r: Request): State {
    State(AfterRequest(s.buckets, r), Extend(s.history, r))
  }

  function Run(s: State, rs: seq<Request>): State
    decreases rs
  {
    if rs == [] then s else Run(Next(s, rs[0]), rs[1..])
  }

  /** A clock that never goes back, and one rule per key. */
  predicate Governed(rs: seq<Request>, rule: Key -> Rule, clock: int) {
    rs == [] ||
    (clock <= rs[0].now && rs[0].most == rule(rs[0].key).most && rs[0].window == rule(rs[0].key).window
     && Governed(rs[1..], rule, rs[0].now))
  }

  // ---- a bucket and the history of its key ----

  /** The times at or after the cutoff, in order. */
  function Since(ts: seq<int>, cutoff: int): seq<int> {
    if ts == [] then []
    else Since(ts[..|ts| - 1], cutoff) + if ts[|ts| - 1] >= cutoff then [ts[|ts| - 1]] else []
  }

  /** Up to the latest time, counting an interval is filtering from its lower end. */
  lemma {:induction false} CountIsSince(ts: seq<int>, lo: int, hi: int)
    requires Since(ts, hi + 1) == []
    ensures Count(ts, lo, hi) == |Since(ts, lo)|
  {
    if ts != [] {
      CountIsSince(ts[..|ts| - 1], lo, hi);
    }
  }

  /** Pruning twice is pruning to the later cutoff. */
  lemma {:induction false} PruneAgain(d: seq<int>, cutoff: int, later: int)
    requires cutoff <= later
    ensures Prune(Prune(d, cutoff), later) == Prune(d, later)
  {
    if d != [] && d[0] < cutoff {
      PruneAgain(d[1..], cutoff, later);
    }
  }

  lemma {:induction false} PruneAppend(d: seq<int>, t: int, cutoff: int)
    ensures Prune(d + [t], cutoff) ==
            if Prune(d, cutoff) != [] || t >= cutoff then Prune(d, cutoff) + [t] else []
  {
    if d == [] {
      assert d + [t] == [t] && [t][1..] == [];
    } else if d[0] < cutoff {
      assert (d + [t])[1..] == d[1..] + [t];
      PruneAppend(d[1..], t, cutoff);
    }
  }

  ghost predicate Agrees(bucket: seq<int>, ts: seq<int>, cutoff: int) {
    Prune(bucket, cutoff) == Since(ts, cutoff)
  }

  ghost predicate NoneSince(ts: seq<int>, cutoff: int) {
    Since(ts, cutoff) == []
  }

  /** At time `clock` nothing is later than `clock`, and at every cutoff still to come the bucket prunes to the
      history from that cutoff on: what the deque has dropped is out of reach for good. */
  ghost predicate Stands(bucket: seq<int>, ts: seq<int>, window: int, clock: int) {
    (forall c :: c > clock ==> NoneSince(ts, c)) &&
    (forall c :: c >= clock - window ==> Agrees(bucket, ts, c))
  }

  /** A bucket pruned to a cutoff agrees with the history at every later one. */
  lemma PrunedAgrees(bucket: seq<int>, ts: seq<int>, cutoff: int, later: int)
    requires cutoff <= later && Agrees(bucket, ts, later)
    ensures Agrees(Prune(bucket, cutoff), ts, later)
  {
  }

  lemma AppendedAgrees(d: seq<int>, ts: seq<int>, now: int, c: int)
    requires Agrees(d, ts, c) && (c > now ==> NoneSince(ts, c))
    ensures Agrees(d + [now], ts + [now], c)
    ensures c > now ==> NoneSince(ts + [now], c)
  {
    PruneAppend(d, now, c);
  }

  lemma PrunedStands(bucket: seq<int>, ts: seq<int>, window: int, clock: int, now: int)
    requires Stands(bucket, ts, window, clock) && clock <= now
    ensures Stands(Prune(bucket, now - window), ts, window, now)
  {
    var d := Prune(bucket, now - window);
    forall c | c >= now - window
      ensures Agrees(d, ts, c)
    {
      assert Agrees(bucket, ts, c);
      PrunedAgrees(bucket, ts, now - window, c);
    }
  }

  lemma AppendedStands(d: seq<int>, ts: seq<int>, window: int, now: int)
    requires Stands(d, ts, window, now)
    ensures Stands(d + [now], ts + [now], window, now)
  {
    forall c | c >= now - window
      ensures Agrees(d + [now], ts + [now], c)
    {
      assert Agrees(d, ts, c) && (c > now ==> NoneSince(ts, c));
      AppendedAgrees(d, ts, now, c);
    }
    forall c | c > now
      ensures NoneSince(ts + [now], c)
    {
      assert NoneSince(ts, c);
    }
  }

  /** A check finds as many entries left in the bucket as the history has admissions in the window. */
  lemma CheckCounts(bucket: seq<int>, ts: seq<int>, window: int, clock: int, now: int)
    requires Stands(bucket, ts, window, clock) && clock <= now
    ensures |Prune(bucket, now - window)| == Count(ts, now - window, now)
  {
    assert Agrees(bucket, ts, now - window) && NoneSince(ts, now + 1);
    CountIsSince(ts, now - window, now);
  }

  /** One check of a bucket answers like the history and leaves the bucket standing for it, admitted or not. */
  lemma CheckStands(bucket: seq<int>, ts: seq<int>, most: int, window: int, clock: int, now: int)
    requires Stands(bucket, ts, window, clock) && clock <= now
    ensures |Prune(bucket, now - window)| == Count(ts, now - window, now)
    ensures if Count(ts, now - window, now) < most then Stands(Prune(bucket, now - window) + [now], ts + [now], window, now)
            else Stands(Prune(bucket, now - window), ts, window, now)
  {
    CheckCounts(bucket, ts, window, clock, now);
    PrunedStands(bucket, ts, window, clock, now);
    AppendedStands(Prune(bucket, now - window), ts, window, now);
  }

  ghost predicate KeyStands(s: State, k: Key, window: int, clock: int) {
    Stands(Bucket(s.buckets, k), KeyTimes(s.history, k), window, clock)
  }

  lemma OwnKeyStands(s: State, r: Request, clock: int)
    requires KeyStands(s, r.key, r.window, clock) && clock <= r.now
    ensures KeyStands(Next(s, r), r.key, r.window, r.now)
    ensures Grants(s.buckets, r) <==> Admits(s.history, r)
  {
    CheckStands(Bucket(s.buckets, r.key), KeyTimes(s.history, r.key), r.most, r.window, clock, r.now);
  }

  lemma NextStands(s: State, r: Request, k: Key, window: int, clock: int)
    requires KeyStands(s, k, window, clock) && clock <= r.now && (k == r.key ==> r.window == window)
    ensures KeyStands(Next(s, r), k, window, r.now)
  {
    if k == r.key {
      OwnKeyStands(s, r, clock);
    }
  }

  function LastTime(rs: seq<Request>, clock: int): int {
    if rs == [] then clock else rs[|rs| - 1].now
  }

  /** After any governed requests every bucket stands for the admission history of its key. */
  lemma {:induction false} LimiterRefinesHistory(s: State, rs: seq<Request>, rule: Key -> Rule, k: Key, clock: int)
    requires Governed(rs, rule, clock) && KeyStands(s, k, rule(k).window, clock)
    ensures KeyStands(Run(s, rs), k, rule(k).window, LastTime(rs, clock))
    decreases rs
  {
    if rs != [] {
      NextStands(s, rs[0], k, rule(k).window, clock);
      LimiterRefinesHistory(Next(s, rs[0]), rs[1..], rule, k, rs[0].now);
    }
  }

  lemma GovernedOne(r: Request, rule: Key -> Rule, clock: int)
    requires Governed([r], rule, clock)
    ensures clock <= r.now && r.window == rule(r.key).window
  {
  }

  lemma StandsAfter(rs: seq<Request>, rule: Key -> Rule, k: Key, clock: int)
    requires Governed(rs, rule, clock)
    ensures KeyStands(Run(EMPTY, rs), k, rule(k).window, LastTime(rs, clock))
  {
    EmptyStands(k, rule(k).window, clock);
    LimiterRefinesHistory(EMPTY, rs, rule, k, clock);
  }

  lemma EmptyStands(k: Key, window: int, clock: int)
    ensures KeyStands(EMPTY, k, window, clock)
  {
  }

  /** For a clock that never goes back and any requests, the pruned deque answers exactly as counting the full
      admission history in [now - window, now] would. */
  lemma DequeAnswersLikeHistory(rs: seq<Request>, r: Request, rule: Key -> Rule, clock: int)
    requires Governed(rs, rule, clock) && Governed([r], rule, LastTime(rs, clock))
    ensures var s := Run(EMPTY, rs);
            Grants(s.buckets, r) <==> Count(KeyTimes(s.history, r.key), r.now - r.window, r.now) < r.most
  {
    GovernedOne(r, rule, LastTime(rs, clock));
    StandsAfter(rs, rule, r.key, clock);
    OwnKeyStands(Run(EMPTY, rs), r, LastTime(rs, clock));
  }

  // ---- every interval of one window's length ----

  /** Of the times up to `now`, those in an interval that contains `now` are all in `now`'s own window. */
  lemma {:induction false} CountFits(ts: seq<int>, window: int, now: int, from: int)
    requires Since(ts, now + 1) == [] && from <= now <= from + window
    ensures Count(ts, from, from + window) <= Count(ts, now - window, now)
  {
    if ts != [] {
      CountFits(ts[..|ts| - 1], window, now, from);
    }
  }

  function Max0(x: int): nat {
    if x > 0 then x else 0
  }

  lemma AdmissionFits(ts: seq<int>, most: int, window: int, now: int, from: int)
    requires Since(ts, now + 1) == [] && Count(ts, now - window, now) < most
    requires Count(ts, from, from + window) <= Max0(most)
    ensures Count(ts + [now], from, from + window) <= Max0(most)
  {
    assert (ts + [now])[..|ts|] == ts;
    if from <= now <= from + window {
      CountFits(ts, window, now, from);
    }
  }

  ghost predicate Bounded(s: State, k: Key, rule: Rule, from: int) {
    Count(KeyTimes(s.history, k), from, from + rule.window) <= Max0(rule.most)
  }

  lemma NextIsBounded(s: State, r: Request, rule: Rule, k: Key, from: int, clock: int)
    requires KeyStands(s, k, rule.window, clock) && clock <= r.now
    requires k == r.key ==> r.window == rule.window && r.most == rule.most
    requires Bounded(s, k, rule, from)
    ensures Bounded(Next(s, r), k, rule, from)
  {
    if r.key == k && Admits(s.history, r) {
      assert NoneSince(KeyTimes(s.history, k), r.now + 1);
      AdmissionFits(KeyTimes(s.history, k), r.most, r.window, r.now, from);
    }
  }

  lemma {:induction false} HistoryIsBounded(s: State, rs: seq<Request>, rule: Key -> Rule, k: Key, from: int, clock: int)
    requires Governed(rs, rule, clock) && KeyStands(s, k, rule(k).window, clock) && Bounded(s, k, rule(k), from)
    ensures Bounded(Run(s, rs), k, rule(k), from)
    decreases rs
  {
    if rs != [] {
      NextStands(s, rs[0], k, rule(k).window, clock);
      NextIsBounded(s, rs[0], rule(k), k, from, clock);
      HistoryIsBounded(Next(s, rs[0]), rs[1..], rule, k, from, rs[0].now);
    }
  }

  /** Over every governed run the deque admits a key exactly when the reference history does. */
  lemma {:induction false} GrantsAreHistory(s: State, rs: seq<Request>, rule: Key -> Rule, k: Key, clock: int)
    requires Governed(rs, rule, clock) && KeyStands(s, k, rule(k).window, clock)
    ensures KeyTimes(Run(s, rs).history, k) == KeyTimes(s.history, k) + GrantedTimes(s.buckets, rs, k)
    decreases rs
  {
    if rs == [] {
      assert KeyTimes(s.history, k) + [] == KeyTimes(s.history, k);
    } else {
      var r := rs[0];
      NextStands(s, r, k, rule(k).window, clock);
      NextGrants(s, r, k, rule(k).window, clock);
      GrantsAreHistory(Next(s, r), rs[1..], rule, k, r.now);
      Regroup(KeyTimes(s.history, k), GrantNow(s.buckets, r, k), GrantedTimes(AfterRequest(s.buckets, r), rs[1..], k));
    }
  }

  lemma Regroup(a: seq<int>, b: seq<int>, c: seq<int>)
    ensures a + b + c == a + (b + c)
  {
  }

  lemma NextGrants(s: State, r: Request, k: Key, window: int, clock: int)
    requires KeyStands(s, k, window, clock) && clock <= r.now && (k == r.key ==> r.window == window)
    ensures KeyTimes(Next(s, r).history, k) == KeyTimes(s.history, k) + GrantNow(s.buckets, r, k)
  {
    if r.key == k {
      OwnKeyStands(s, r, clock);
    }
    assert KeyTimes(s.history, k) + [] == KeyTimes(s.history, k);
  }

  /** Every closed interval of one window's length holds at most the rule's number of admissions of a key. */
  lemma AnyWindowIsBounded(rs: seq<Request>, rule: Key -> Rule, k: Key, from: int, clock: int)
    requires Governed(rs, rule, clock)
    ensures Count(GrantedTimes(map[], rs, k), from, from + rule(k).window) <= Max0(rule(k).most)
  {
    HistoryIsBounded(EMPTY, rs, rule, k, from, clock);
    GrantsAreHistory(EMPTY, rs, rule, k, clock);
    assert [] + GrantedTimes(map[], rs, k) == GrantedTimes(map[], rs, k);
  }

  function OnlyKey(rs: seq<Request>, k: Key): seq<Request> {
    if rs == [] then [] else (if rs[0].key == k then [rs[0]] else []) + OnlyKey(rs[1..], k)
  }

  /** Keys are independent: what the deques grant a key depends on its own bucket and its own requests alone. */
  lemma {:induction false} KeysAreIndependent(b: Buckets, b': Buckets, rs: seq<Request>, k: Key)
    requires Bucket(b, k) == Bucket(b', k)
    ensures GrantedTimes(b, rs, k) == GrantedTimes(b', OnlyKey(rs, k), k)
    decreases rs
  {
    if rs != [] {
      var r := rs[0];
      if r.key == k {
        assert OnlyKey(rs, k)[0] == r && OnlyKey(rs, k)[1..] == OnlyKey(rs[1..], k);
        KeysAreIndependent(AfterRequest(b, r), AfterRequest(b', r), rs[1..], k);
      } else {
        assert OnlyKey(rs, k) == OnlyKey(rs[1..], k);
        KeysAreIndependent(AfterRequest(b, r), b', rs[1..], k);
      }
    }
  }

  // ---- the middleware: first matching rule ----

  predicate StartsWith(path: string, prefix: string) {
    prefix <= path
  }

  function FirstMatch(rules: seq<Rule>, path: string): Option<Rule> {
    if rules == [] then None
    else if StartsWith(path, rules[0].prefix) then Some(rules[0])
    else FirstMatch(rules[1..], path)
  }

  /** Two paths that fall into buckets of the same prefix are under the same rule, even when several rules share
      a prefix, so each bucket key is tied to one rule. */
  lemma {:induction false} PrefixDeterminesRule(rules: seq<Rule>, path: string, path': string)
    requires FirstMatch(rules, path).Some? && FirstMatch(rules, path').Some?
    requires FirstMatch(rules, path).value.prefix == FirstMatch(rules, path').value.prefix
    ensures FirstMatch(rules, path) == FirstMatch(rules, path')
  {
    FirstMatchMatches(rules, path);
    FirstMatchMatches(rules, path');
    if !StartsWith(path, rules[0].prefix) && !StartsWith(path', rules[0].prefix) {
      PrefixDeterminesRule(rules[1..], path, path');
    }
  }

  lemma {:induction false} FirstMatchMatches(rules: seq<Rule>, path: string)
    requires FirstMatch(rules, path).Some?
    ensures StartsWith(path, FirstMatch(rules, path).value.prefix)
    ensures FirstMatch(rules, FirstMatch(rules, path).value.prefix) == FirstMatch(rules, path)
  {
    if !StartsWith(path, rules[0].prefix) {
      FirstMatchMatches(rules[1..], path);
      var p := FirstMatch(rules[1..], path).value.prefix;
    }
  }

  datatype Hit = Hit(path: string, client: string, now: int)

  /** The rule behind a bucket key: the one its own prefix matches. */
  function RuleOf(rules: seq<Rule>): Key -> Rule {
    (k: Key) => var r := FirstMatch(rules, k.prefix); if r.Some? then r.value else Rule(k.prefix, 0, 0)
  }

  /** What the middleware asks of the limiter; unmatched paths ask nothing. */
  function Asked(rules: seq<Rule>, hits: seq<Hit>): seq<Request> {
    if hits == [] then []
    else
      var r := FirstMatch(rules, hits[0].path);
      if r.None? then Asked(rules, hits[1..])
      else [Request(Key(r.value.prefix, hits[0].client), r.value.most, r.value.window, hits[0].now)] + Asked(rules, hits[1..])
  }

  predicate Ordered(hits: seq<Hit>, clock: int) {
    hits == [] || (clock <= hits[0].now && Ordered(hits[1..], hits[0].now))
  }

  lemma {:induction false} AskedIsGoverned(rules: seq<Rule>, hits: seq<Hit>, clock: int, asked: int)
    requires Ordered(hits, clock) && asked <= clock
    ensures Governed(Asked(rules, hits), RuleOf(rules), asked)
  {
    if hits != [] {
      var x := hits[0];
      if FirstMatch(rules, x.path).Some? {
        FirstMatchMatches(rules, x.path);
        AskedIsGoverned(rules, hits[1..], x.now, x.now);
        assert Asked(rules, hits)[1..] == Asked(rules, hits[1..]);
      } else {
        AskedIsGoverned(rules, hits[1..], x.now, asked);
      }
    }
  }

  /** The limiter request a hit under a rule amounts to. */
  function RequestOf(r: Rule, x: Hit): Request {
    Request(Key(r.prefix, x.client), r.most, r.window, x.now)
  }

  /** A hit is let through unless the first rule its path matches finds its bucket full. */
  predicate LetsThrough(rules: seq<Rule>, b: Buckets, x: Hit) {
    var r := FirstMatch(rules, x.path);
    r.Some? ==> Grants(b, RequestOf(r.value, x))
  }

  function Dispatched(rules: seq<Rule>, b: Buckets, x: Hit): Buckets {
    var r := FirstMatch(rules, x.path);
    if r.None? then b else Checked(b, Key(r.value.prefix, x.client), r.value.most, r.value.window, x.now)
  }

  /** The times at which the middleware lets a client through under the rule of a prefix. */
  function Passed(rules: seq<Rule>, b: Buckets, hits: seq<Hit>, k: Key): seq<int>
    decreases hits
  {
    if hits == [] then []
    else
      var x, r := hits[0], FirstMatch(rules, hits[0].path);
      (if r.Some? && Key(r.value.prefix, x.client) == k && LetsThrough(rules, b, x) then [x.now] else []) +
      Passed(rules, Dispatched(rules, b, x), hits[1..], k)
  }

  lemma {:induction false} PassedIsGranted(rules: seq<Rule>, b: Buckets, hits: seq<Hit>, k: Key)
    ensures Passed(rules, b, hits, k) == GrantedTimes(b, Asked(rules, hits), k)
    decreases hits
  {
    if hits != [] {
      var x, r := hits[0], FirstMatch(rules, hits[0].path);
      PassedIsGranted(rules, Dispatched(rules, b, x), hits[1..], k);
      if r.Some? {
        var asked := Asked(rules, hits);
        assert asked[0] == RequestOf(r.value, x) && asked[1..] == Asked(rules, hits[1..]);
      }
    }
  }

  /** For every rule list and every traffic, each client is let through at most a rule's number of times in any closed
      interval of that rule's window. */
  lemma MiddlewareBound(rules: seq<Rule>, hits: seq<Hit>, k: Key, from: int, clock: int)
    requires Ordered(hits, clock)
    ensures Count(Passed(rules, map[], hits, k), from, from + RuleOf(rules)(k).window) <= Max0(RuleOf(rules)(k).most)
  {
    AskedIsGoverned(rules, hits, clock, clock);
    AnyWindowIsBounded(Asked(rules, hits), RuleOf(rules), k, from, clock);
    PassedIsGranted(rules, map[], hits, k);
  }

  // ---- the middleware against a count of everything it let through ----

  datatype Pass = Pass(prefix: string, client: string, time: int)

  /** How often a client has passed under a prefix in a closed interval. */
  function PassCount(passes: seq<Pass>, prefix: string, client: string, lo: int, hi: int): nat {
    if passes == [] then 0
    else
      var p := passes[|passes| - 1];
      PassCount(passes[..|passes| - 1], prefix, client, lo, hi) +
      if p.prefix == prefix && p.client == client && lo <= p.time <= hi then 1 else 0
  }

  /** The first rule whose prefix the path starts with. */
  lemma {:induction false} FirstMatchIs(rules: seq<Rule>, path: string)
    ensures FirstMatch(rules, path) == None <==> forall i :: 0 <= i < |rules| ==> !(rules[i].prefix <= path)
    ensures FirstMatch(rules, path).Some? ==>
            exists i :: 0 <= i < |rules| && FirstMatch(rules, path).value == rules[i] && rules[i].prefix <= path &&
                        forall j :: 0 <= j < i ==> !(rules[j].prefix <= path)
  {
    if rules != [] {
      var rest := rules[1..];
      FirstMatchIs(rest, path);
      assert forall i :: 0 <= i < |rest| ==> rest[i] == rules[i + 1];
      if rules[0].prefix <= path {
        assert FirstMatch(rules, path).value == rules[0];
      } else if FirstMatch(rest, path).Some? {
        var i :| 0 <= i < |rest| && FirstMatch(rest, path).value == rest[i] && rest[i].prefix <= path &&
                 forall j :: 0 <= j < i ==> !(rest[j].prefix <= path);
        assert rules[i + 1] == rest[i];
        assert forall j :: 0 < j < i + 1 ==> rules[j] == rest[j - 1];
      }
    }
  }

  /** A hit passes if no rule matches it, or if its client has passed under the rule fewer times than allowed in the
      window that ends with it. */
  predicate MayPass(rules: seq<Rule>, passes: seq<Pass>, x: Hit) {
    var r := FirstMatch(rules, x.path);
    r.Some? ==> PassCount(passes, r.value.prefix, x.client, x.now - r.value.window, x.now) < r.value.most
  }

  function PassesAfter(rules: seq<Rule>, passes: seq<Pass>, hits: seq<Hit>): seq<Pass>
    decreases hits
  {
    if hits == [] then passes
    else
      var x, r := hits[0], FirstMatch(rules, hits[0].path);
      PassesAfter(rules, if r.Some? && MayPass(rules, passes, x) then passes + [Pass(r.value.prefix, x.client, x.now)] else passes, hits[1..])
  }

  function BucketsAfter(rules: seq<Rule>, b: Buckets, hits: seq<Hit>): Buckets
    decreases hits
  {
    if hits == [] then b else BucketsAfter(rules, Dispatched(rules, b, hits[0]), hits[1..])
  }

  /** The history of the limiter's keys holds the same passes. */
  ghost predicate SamePasses(h: History, passes: seq<Pass>) {
    forall k, lo, hi :: Count(KeyTimes(h, k), lo, hi) == PassCount(passes, k.prefix, k.client, lo, hi)
  }

  lemma CountAppend(ts: seq<int>, t: int, lo: int, hi: int)
    ensures Count(ts + [t], lo, hi) == Count(ts, lo, hi) + if lo <= t <= hi then 1 else 0
  {
    assert (ts + [t])[..|ts|] == ts;
  }

  lemma PassAppend(passes: seq<Pass>, p: Pass, k: Key, lo: int, hi: int)
    ensures PassCount(passes + [p], k.prefix, k.client, lo, hi) ==
            PassCount(passes, k.prefix, k.client, lo, hi) + if k == Key(p.prefix, p.client) && lo <= p.time <= hi then 1 else 0
  {
    assert (passes + [p])[..|passes|] == passes;
  }

  lemma PassIsRecorded(h: History, passes: seq<Pass>, r: Rule, x: Hit)
    requires SamePasses(h, passes)
    ensures SamePasses(h[Key(r.prefix, x.client) := KeyTimes(h, Key(r.prefix, x.client)) + [x.now]],
                       passes + [Pass(r.prefix, x.client, x.now)])
  {
    var k0 := Key(r.prefix, x.client);
    var h' := h[k0 := KeyTimes(h, k0) + [x.now]];
    forall k, lo, hi
      ensures Count(KeyTimes(h', k), lo, hi) == PassCount(passes + [Pass(r.prefix, x.client, x.now)], k.prefix, k.client, lo, hi)
    {
      PassAppend(passes, Pass(r.prefix, x.client, x.now), k, lo, hi);
      CountAppend(KeyTimes(h, k), x.now, lo, hi);
    }
  }

  lemma AdmitsIffMayPass(rules: seq<Rule>, h: History, passes: seq<Pass>, r: Rule, x: Hit)
    requires SamePasses(h, passes) && FirstMatch(rules, x.path) == Some(r)
    ensures Admits(h, RequestOf(r, x)) <==> MayPass(rules, passes, x)
  {
    var k := Key(r.prefix, x.client);
    assert Count(KeyTimes(h, k), x.now - r.window, x.now) == PassCount(passes, k.prefix, k.client, x.now - r.window, x.now);
  }

  /** One matched hit, in the limiter's state and in the count of passes. */
  lemma HitIsRecorded(rules: seq<Rule>, s: State, passes: seq<Pass>, r: Rule, x: Hit)
    requires SamePasses(s.history, passes) && FirstMatch(rules, x.path) == Some(r)
    ensures var passes' := if MayPass(rules, passes, x) then passes + [Pass(r.prefix, x.client, x.now)] else passes;
            SamePasses(Extend(s.history, RequestOf(r, x)), passes')
  {
    AdmitsIffMayPass(rules, s.history, passes, r, x);
    if MayPass(rules, passes, x) {
      PassIsRecorded(s.history, passes, r, x);
    }
  }

  lemma {:induction false} HistoryIsPasses(rules: seq<Rule>, s: State, passes: seq<Pass>, hits: seq<Hit>)
    requires SamePasses(s.history, passes)
    ensures var e := Run(s, Asked(rules, hits));
            SamePasses(e.history, PassesAfter(rules, passes, hits)) && e.buckets == BucketsAfter(rules, s.buckets, hits)
    decreases hits
  {
    if hits != [] {
      var x, r := hits[0], FirstMatch(rules, hits[0].path);
      if r.None? {
        HistoryIsPasses(rules, s, passes, hits[1..]);
      } else {
        var asked := Asked(rules, hits);
        assert asked[0] == RequestOf(r.value, x) && asked[1..] == Asked(rules, hits[1..]);
        HitIsRecorded(rules, s, passes, r.value, x);
        var passes' := if MayPass(rules, passes, x) then passes + [Pass(r.value.prefix, x.client, x.now)] else passes;
        HistoryIsPasses(rules, Next(s, asked[0]), passes', hits[1..]);
      }
    }
  }

  lemma MatchedHitIsGoverned(rules: seq<Rule>, x: Hit, r: Rule, clock: int)
    requires FirstMatch(rules, x.path) == Some(r) && clock <= x.now
    ensures Governed([RequestOf(r, x)], RuleOf(rules), clock)
  {
    FirstMatchMatches(rules, x.path);
    assert [RequestOf(r, x)][1..] == [];
  }

  lemma DequeAdmits(rs: seq<Request>, q: Request, rule: Key -> Rule, clock: int)
    requires Governed(rs, rule, clock) && Governed([q], rule, LastTime(rs, clock))
    ensures Grants(Run(EMPTY, rs).buckets, q) <==> Admits(Run(EMPTY, rs).history, q)
  {
    DequeAnswersLikeHistory(rs, q, rule, clock);
  }

  lemma TrafficIsGoverned(rules: seq<Rule>, hits: seq<Hit>, x: Hit, r: Rule, clock: int)
    requires Ordered(hits, clock) && LastHit(hits, clock) <= x.now && FirstMatch(rules, x.path) == Some(r)
    ensures Governed(Asked(rules, hits), RuleOf(rules), clock)
    ensures Governed([RequestOf(r, x)], RuleOf(rules), LastTime(Asked(rules, hits), clock))
  {
    AskedIsGoverned(rules, hits, clock, clock);
    AskedEndsBefore(rules, hits, clock, clock);
    MatchedHitIsGoverned(rules, x, r, LastTime(Asked(rules, hits), clock));
  }

  /** After any traffic under a clock that never goes back, the middleware lets a hit through exactly when no rule matches
      it or its client has passed under the first matching rule fewer times than allowed in the window that ends now. */
  lemma MiddlewareCountsPasses(rules: seq<Rule>, hits: seq<Hit>, x: Hit, clock: int)
    requires Ordered(hits, clock) && LastHit(hits, clock) <= x.now
    ensures LetsThrough(rules, BucketsAfter(rules, map[], hits), x) <==> MayPass(rules, PassesAfter(rules, [], hits), x)
  {
    var asked, r := Asked(rules, hits), FirstMatch(rules, x.path);
    HistoryIsPasses(rules, EMPTY, [], hits);
    if r.Some? {
      TrafficIsGoverned(rules, hits, x, r.value, clock);
      DequeAdmits(asked, RequestOf(r.value, x), RuleOf(rules), clock);
      AdmitsIffMayPass(rules, Run(EMPTY, asked).history, PassesAfter(rules, [], hits), r.value, x);
    }
  }

  function LastHit(hits: seq<Hit>, clock: int): int {
    if hits == [] then clock else hits[|hits| - 1].now
  }

  lemma LastTimeAfter(q: Request, rest: seq<Request>, clock: int)
    ensures LastTime([q] + rest, clock) == LastTime(rest, q.now)
  {
  }

  lemma {:induction false} AskedEndsBefore(rules: seq<Rule>, hits: seq<Hit>, clock: int, asked: int)
    requires Ordered(hits, clock) && asked <= clock
    ensures LastTime(Asked(rules, hits), asked) <= LastHit(hits, clock)
  {
    if hits != [] {
      var x, r := hits[0], FirstMatch(rules, hits[0].path);
      AskedEndsBefore(rules, hits[1..], x.now, if r.Some? then x.now else asked);
      if r.Some? {
        LastTimeAfter(RequestOf(r.value, x), Asked(rules, hits[1..]), asked);
      }
    }
  }

  class RateLimitMiddleware {
    const rules: seq<Rule>
    const limiter: SlidingWindowLimiter

    constructor (rules: seq<Rule>, limiter: SlidingWindowLimiter)
      ensures this.rules == rules && this.limiter == limiter
    {
      this.rules, this.limiter := rules, limiter;
    }

    method Dispatch(x: Hit) returns (ok: bool)
      modifies limiter
      ensures ok <==> LetsThrough(rules, old(limiter.buckets), x)
      ensures limiter.buckets == Dispatched(rules, old(limiter.buckets), x)
    {
      var i := 0;
      while i < |rules|
        invariant 0 <= i <= |rules|
        invariant FirstMatch(rules[i..], x.path) == FirstMatch(rules, x.path)
        invariant limiter.buckets == old(limiter.buckets)
      {
        assert rules[i..][1..] == rules[i + 1..];
        if StartsWith(x.path, rules[i].prefix) {
          ok := limiter.Check(Key(rules[i].prefix, x.client), rules[i].most, rules[i].window, x.now);
          return;
        }
        i := i + 1;
      }
      return true;
    }
  }
}
