/** One-time codes: the drift window and the replay defence of section 5.2 of RFC 6238. */
module Totp {
  import opened Options

  const DIGITS := 6
  const STEP_SECONDS := 30.0
  const DRIFT_STEPS := 1

  function CurrentStep(now: real): int {
    (now / STEP_SECONDS).Floor
  }

  /** The step of a clock reading is the interval of thirty seconds that holds it. */
  lemma StepHolds(now: real, step: int)
    ensures CurrentStep(now) == step <==> step as real * 30.0 <= now < (step + 1) as real * 30.0
  {
  }

  // ---- what counts as a code ----

  predicate IsSpace(c: char) {
    c == ' ' || '\t' <= c <= '\r' || '\U{1c}' <= c <= '\U{1f}' || c == '\U{85}' || c == '\U{a0}' || c == '\U{1680}'
    || '\U{2000}' <= c <= '\U{200a}' || '\U{2028}' <= c <= '\U{2029}' || c == '\U{202f}' || c == '\U{205f}' || c == '\U{3000}'
  }

  function StripLeft(s: string): string {
    if s != "" && IsSpace(s[0]) then StripLeft(s[1..]) else s
  }

  function StripRight(s: string): string {
    if s != "" && IsSpace(s[|s| - 1]) then StripRight(s[..|s| - 1]) else s
  }

  function WithoutBlanks(s: string): string {
    if s == "" then "" else (if s[0] == ' ' then "" else [s[0]]) + WithoutBlanks(s[1..])
  }

  function Clean(code: string): string {
    WithoutBlanks(StripRight(StripLeft(code)))
  }

  predicate WellFormed(code: string) {
    |code| == DIGITS && forall i :: 0 <= i < |code| ==> '0' <= code[i] <= '9'
  }

  lemma {:induction false} DigitsHaveNoBlanks(s: string)
    requires forall i :: 0 <= i < |s| ==> '0' <= s[i] <= '9'
    ensures WithoutBlanks(s) == s
  {
    if s != "" {
      DigitsHaveNoBlanks(s[1..]);
    }
  }

  lemma {:induction false} BlanksJoin(a: string, b: string)
    ensures WithoutBlanks(a + b) == WithoutBlanks(a) + WithoutBlanks(b)
  {
    if a == "" {
      assert a + b == b;
    } else {
      assert (a + b)[0] == a[0] && (a + b)[1..] == a[1..] + b;
      BlanksJoin(a[1..], b);
    }
  }

  lemma {:induction false} StripLeftSpaces(lead: string, s: string)
    requires (forall i :: 0 <= i < |lead| ==> IsSpace(lead[i])) && s != "" && !IsSpace(s[0])
    ensures StripLeft(lead + s) == s
  {
    if lead == "" {
      assert lead + s == s;
    } else {
      assert (lead + s)[1..] == lead[1..] + s;
      StripLeftSpaces(lead[1..], s);
    }
  }

  lemma {:induction false} StripRightSpaces(s: string, trail: string)
    requires (forall i :: 0 <= i < |trail| ==> IsSpace(trail[i])) && s != "" && !IsSpace(s[|s| - 1])
    ensures StripRight(s + trail) == s
  {
    if trail == "" {
      assert s + trail == s;
    } else {
      assert (s + trail)[..|s + trail| - 1] == s + trail[..|trail| - 1];
      StripRightSpaces(s, trail[..|trail| - 1]);
    }
  }

  lemma SpacesAround(lead: string, core: string, trail: string)
    requires (forall i :: 0 <= i < |lead| ==> IsSpace(lead[i])) && forall i :: 0 <= i < |trail| ==> IsSpace(trail[i])
    requires core != "" && !IsSpace(core[0]) && !IsSpace(core[|core| - 1])
    ensures Clean(lead + core + trail) == WithoutBlanks(core)
  {
    assert lead + core + trail == lead + (core + trail) && (core + trail)[0] == core[0];
    StripLeftSpaces(lead, core + trail);
    StripRightSpaces(core, trail);
  }

  lemma GroupsJoin(a: string, blanks: string, b: string)
    requires WithoutBlanks(a) == a && WithoutBlanks(blanks) == "" && WithoutBlanks(b) == b
    ensures WithoutBlanks(a + blanks + b) == a + b
  {
    BlanksDrop(a, blanks);
    BlanksJoin(a + blanks, b);
  }

  lemma BlanksDrop(a: string, blanks: string)
    requires WithoutBlanks(a) == a && WithoutBlanks(blanks) == ""
    ensures WithoutBlanks(a + blanks) == a
  {
    BlanksJoin(a, blanks);
    assert a + "" == a;
  }

  /** Digits in two groups with any number of blanks between them and any white space around them are read as one code. */
  lemma GroupedCodeIsRead(lead: string, a: string, blanks: string, b: string, trail: string)
    requires (forall i :: 0 <= i < |lead| ==> IsSpace(lead[i])) && forall i :: 0 <= i < |trail| ==> IsSpace(trail[i])
    requires a != "" && b != "" && forall i :: 0 <= i < |blanks| ==> blanks[i] == ' '
    requires (forall i :: 0 <= i < |a| ==> '0' <= a[i] <= '9') && forall i :: 0 <= i < |b| ==> '0' <= b[i] <= '9'
    ensures Clean(lead + (a + blanks + b) + trail) == a + b
  {
    var core := a + blanks + b;
    assert core[0] == a[0] && core[|core| - 1] == b[|b| - 1];
    SpacesAround(lead, core, trail);
    OnlyBlanks(blanks);
    DigitsHaveNoBlanks(a);
    DigitsHaveNoBlanks(b);
    GroupsJoin(a, blanks, b);
  }

  lemma {:induction false} OnlyBlanks(s: string)
    requires forall i :: 0 <= i < |s| ==> s[i] == ' '
    ensures WithoutBlanks(s) == ""
  {
    if s != "" {
      OnlyBlanks(s[1..]);
    }
  }

  // ---- one attempt ----

  /** The code of each step, for one user's secret. */
  type Hotp = int -> string

  /** The earliest step of the drift window whose code this is. */
  function Match(hotp: Hotp, code: string, step: int, offset: int): Option<int>
    decreases DRIFT_STEPS + 1 - offset
  {
    if offset > DRIFT_STEPS then None
    else if hotp(step + offset) == code then Some(step + offset)
    else Match(hotp, code, step, offset + 1)
  }

  /** The earliest matching step decides: a replay there is refused even if a later step would match too. */
  function Verified(hotp: Hotp, code: string, last: Option<int>, now: real): Option<int> {
    if !WellFormed(Clean(code)) then None
    else
      var m := Match(hotp, Clean(code), CurrentStep(now), -DRIFT_STEPS);
      if m.Some? && last.Some? && m.value <= last.value then None else m
  }

  method VerifyCode(hotp: Hotp, code: string, minStep: Option<int>, now: real) returns (r: Option<int>)
    ensures r == Verified(hotp, code, minStep, now)
  {
    var cleaned := Clean(code);
    if !WellFormed(cleaned) {
      return None;
    }
    for offset := -DRIFT_STEPS to DRIFT_STEPS + 1
      invariant Match(hotp, cleaned, CurrentStep(now), offset) == Match(hotp, cleaned, CurrentStep(now), -DRIFT_STEPS)
    {
      var candidate := now + offset as real * STEP_SECONDS;
      if hotp(CurrentStep(candidate)) == cleaned {
        var step := CurrentStep(candidate);
        if minStep.Some? && step <= minStep.value {
          return None;
        }
        return Some(step);
      }
    }
    return None;
  }

  lemma {:induction false} MatchIsFirst(hotp: Hotp, code: string, step: int, offset: int)
    requires offset <= DRIFT_STEPS + 1
    ensures var m := Match(hotp, code, step, offset);
            (m.None? <==> forall n :: step + offset <= n <= step + DRIFT_STEPS ==> hotp(n) != code) &&
            (m.Some? ==> step + offset <= m.value <= step + DRIFT_STEPS && hotp(m.value) == code &&
                         forall n :: step + offset <= n < m.value ==> hotp(n) != code)
    decreases DRIFT_STEPS + 1 - offset
  {
    if offset <= DRIFT_STEPS && hotp(step + offset) != code {
      MatchIsFirst(hotp, code, step, offset + 1);
    }
  }

  /** An accepted step is fresh, within one step of the clock, and its code is the one given. */
  lemma AcceptedIsFresh(hotp: Hotp, code: string, last: Option<int>, now: real)
    requires Verified(hotp, code, last, now).Some?
    ensures var step := Verified(hotp, code, last, now).value;
            CurrentStep(now) - 1 <= step <= CurrentStep(now) + 1 && hotp(step) == Clean(code) && (last.Some? ==> step > last.value)
  {
    MatchIsFirst(hotp, Clean(code), CurrentStep(now), -DRIFT_STEPS);
  }

  /** The step is in the drift window and this is its code. */
  predicate Matches(hotp: Hotp, code: string, now: real, step: int) {
    CurrentStep(now) - 1 <= step <= CurrentStep(now) + 1 && hotp(step) == Clean(code)
  }

  predicate Unused(last: Option<int>, step: int) {
    last.Some? ==> step > last.value
  }

  /** A code is accepted if and only if it is well formed, some step of the window has it, and no step of the window
      that has it is used up. */
  lemma AcceptedIff(hotp: Hotp, code: string, last: Option<int>, now: real)
    ensures Verified(hotp, code, last, now).Some? <==>
            |Clean(code)| == 6 && (forall i :: 0 <= i < 6 ==> '0' <= Clean(code)[i] <= '9') && (exists step :: Matches(hotp, code, now, step)) &&
            forall step :: Matches(hotp, code, now, step) ==> Unused(last, step)
  {
    var m := Match(hotp, Clean(code), CurrentStep(now), -DRIFT_STEPS);
    MatchIsFirst(hotp, Clean(code), CurrentStep(now), -DRIFT_STEPS);
    if m.Some? {
      assert Matches(hotp, code, now, m.value);
    }
  }

  /** The well-formed code of an unused step is refused if and only if a used step of the window has the same code. */
  lemma FreshCodeIsRefusedIff(hotp: Hotp, code: string, last: Option<int>, now: real, step: int)
    requires WellFormed(Clean(code)) && Matches(hotp, code, now, step) && Unused(last, step)
    ensures Verified(hotp, code, last, now).None? <==> exists used :: Matches(hotp, code, now, used) && !Unused(last, used)
  {
    AcceptedIff(hotp, code, last, now);
  }

  /** Two steps of one window with the code 123456, the earlier one used: the later one's code is refused. */
  lemma SharedCodeIsRefused(hotp: Hotp)
    requires hotp(0) == "123456" && hotp(1) == "123456"
    ensures Verified(hotp, "123456", Some(0), 0.0) == None && Matches(hotp, "123456", 0.0, 1) && Unused(Some(0), 1)
  {
    var code := "123456";
    CleanDigits(code);
    assert CurrentStep(0.0) == 0;
    assert Matches(hotp, code, 0.0, 0);
    AcceptedIff(hotp, code, Some(0), 0.0);
  }

  lemma CleanDigits(code: string)
    requires WellFormed(code)
    ensures Clean(code) == code
  {
    assert StripLeft(code) == code && StripRight(code) == code;
    DigitsHaveNoBlanks(code);
  }

  // ---- every sequence of attempts ----

  datatype Attempt = Attempt(code: string, now: real)
  datatype Acceptance = Acceptance(step: int, now: real)

  class SecondFactor {
    const hotp: Hotp
    var lastStep: Option<int>

    constructor (hotp: Hotp)
      ensures this.hotp == hotp && lastStep == None
    {
      this.hotp, lastStep := hotp, None;
    }

    /** An accepted step is stored before the answer is given. */
    method Attempt(code: string, now: real) returns (ok: bool)
      modifies this`lastStep
      ensures ok <==> Verified(hotp, code, old(lastStep), now).Some?
      ensures lastStep == if ok then Verified(hotp, code, old(lastStep), now) else old(lastStep)
    {
      var r := VerifyCode(hotp, code, lastStep, now);
      ok := r.Some?;
      if ok {
        lastStep := r;
      }
    }
  }

  function LastStep(log: seq<Acceptance>): Option<int> {
    if log == [] then None else Some(log[|log| - 1].step)
  }

  /** What has been accepted, oldest first; the stored step is the last of it. */
  function Accepted(hotp: Hotp, attempts: seq<Attempt>): seq<Acceptance> {
    if attempts == [] then []
    else
      var log, a := Accepted(hotp, attempts[..|attempts| - 1]), attempts[|attempts| - 1];
      var r := Verified(hotp, a.code, LastStep(log), a.now);
      if r.Some? then log + [Acceptance(r.value, a.now)] else log
  }

  ghost predicate Increasing(log: seq<Acceptance>) {
    forall i, j :: 0 <= i < j < |log| ==> log[i].step < log[j].step
  }

  predicate IsNear(a: Acceptance) {
    CurrentStep(a.now) - 1 <= a.step <= CurrentStep(a.now) + 1
  }

  ghost predicate NearClock(log: seq<Acceptance>) {
    forall i :: 0 <= i < |log| ==> IsNear(log[i])
  }

  /** Whatever codes are tried and whatever the clock reads, accepted steps only go up, so no step is ever accepted
      twice, and each is within one step of the clock it was accepted at. */
  lemma {:induction false} NoStepIsAcceptedTwice(hotp: Hotp, attempts: seq<Attempt>)
    ensures Increasing(Accepted(hotp, attempts)) && NearClock(Accepted(hotp, attempts))
  {
    if attempts != [] {
      var init, a := attempts[..|attempts| - 1], attempts[|attempts| - 1];
      NoStepIsAcceptedTwice(hotp, init);
      var log := Accepted(hotp, init);
      var r := Verified(hotp, a.code, LastStep(log), a.now);
      if r.Some? {
        AcceptedIsFresh(hotp, a.code, LastStep(log), a.now);
      }
    }
  }

  /** The acceptances whose clock reading lies in the interval. */
  function Between(log: seq<Acceptance>, t1: real, t2: real): seq<Acceptance> {
    if log == [] then []
    else
      var init, last := Between(log[..|log| - 1], t1, t2), log[|log| - 1];
      if t1 <= last.now <= t2 then init + [last] else init
  }

  lemma {:induction false} BetweenIsPart(log: seq<Acceptance>, t1: real, t2: real, a: Acceptance)
    requires a in Between(log, t1, t2)
    ensures a in log && t1 <= a.now <= t2
  {
    var last := log[|log| - 1];
    if !(t1 <= last.now <= t2) || a != last {
      BetweenIsPart(log[..|log| - 1], t1, t2, a);
    }
  }

  lemma {:induction false} BetweenIncreases(log: seq<Acceptance>, t1: real, t2: real)
    requires Increasing(log)
    ensures Increasing(Between(log, t1, t2))
  {
    if log != [] {
      var init, last := log[..|log| - 1], log[|log| - 1];
      BetweenIncreases(init, t1, t2);
      var b := Between(init, t1, t2);
      if b != [] {
        BetweenIsPart(init, t1, t2, b[|b| - 1]);
      }
    }
  }

  ghost predicate InRange(log: seq<Acceptance>, lo: int, hi: int) {
    forall i :: 0 <= i < |log| ==> lo <= log[i].step <= hi
  }

  lemma {:induction false} IncreasingFits(log: seq<Acceptance>, lo: int, hi: int)
    requires Increasing(log) && InRange(log, lo, hi) && lo <= hi + 1
    ensures |log| <= hi - lo + 1
  {
    if log != [] {
      IncreasingFits(log[..|log| - 1], lo, log[|log| - 1].step - 1);
    }
  }

  lemma BetweenIsInRange(log: seq<Acceptance>, t1: real, t2: real)
    requires NearClock(log)
    ensures InRange(Between(log, t1, t2), CurrentStep(t1) - 1, CurrentStep(t2) + 1)
  {
    var b := Between(log, t1, t2);
    forall i | 0 <= i < |b|
      ensures CurrentStep(t1) - 1 <= b[i].step <= CurrentStep(t2) + 1
    {
      BetweenIsPart(log, t1, t2, b[i]);
      assert IsNear(b[i]);
    }
  }

  /** Between two clock readings there are at most as many acceptances as the steps between them plus three. */
  lemma AcceptancesAreBounded(hotp: Hotp, attempts: seq<Attempt>, t1: real, t2: real)
    requires t1 <= t2
    ensures |Between(Accepted(hotp, attempts), t1, t2)| <= CurrentStep(t2) - CurrentStep(t1) + 3
  {
    NoStepIsAcceptedTwice(hotp, attempts);
    BetweenIncreases(Accepted(hotp, attempts), t1, t2);
    BetweenIsInRange(Accepted(hotp, attempts), t1, t2);
    IncreasingFits(Between(Accepted(hotp, attempts), t1, t2), CurrentStep(t1) - 1, CurrentStep(t2) + 1);
  }

  // ---- attempts that overlap ----

  /** Reading the stored step and writing the accepted one are two statements; `pending` holds the steps of attempts
      that have been accepted on what they read and have not written yet. */
  datatype Race = Race(stored: Option<int>, pending: seq<int>, written: seq<int>)

  function ReadMove(hotp: Hotp, s: Race, a: Attempt): Race {
    var r := Verified(hotp, a.code, s.stored, a.now);
    if r.Some? then s.(pending := s.pending + [r.value]) else s
  }

  function WriteMove(s: Race, i: nat): Race {
    if i >= |s.pending| then s
    else Race(Some(s.pending[i]), s.pending[..i] + s.pending[i + 1..], s.written + [s.pending[i]])
  }

  function Writes(s: Race, order: seq<nat>): Race
    decreases order
  {
    if order == [] then s else Writes(WriteMove(s, order[0]), order[1..])
  }

  ghost predicate Once(steps: multiset<int>) {
    forall x :: steps[x] <= 1
  }

  lemma WriteMoves(s: Race, i: nat)
    ensures multiset(WriteMove(s, i).written) + multiset(WriteMove(s, i).pending) == multiset(s.written) + multiset(s.pending)
  {
    if i < |s.pending| {
      assert s.pending == s.pending[..i] + [s.pending[i]] + s.pending[i + 1..];
    }
  }

  lemma {:induction false} WritesMove(s: Race, order: seq<nat>)
    ensures multiset(Writes(s, order).written) + multiset(Writes(s, order).pending) == multiset(s.written) + multiset(s.pending)
    decreases order
  {
    if order != [] {
      WriteMoves(s, order[0]);
      WritesMove(WriteMove(s, order[0]), order[1..]);
    }
  }

  lemma {:induction false} WriteAll(s: Race) returns (order: seq<nat>)
    ensures Writes(s, order).pending == []
    decreases |s.pending|
  {
    if s.pending == [] {
      order := [];
    } else {
      var rest := WriteAll(WriteMove(s, 0));
      order := [0] + rest;
      assert order[1..] == rest;
    }
  }

  /** An attempt that nothing overlaps: what it accepts is written at once. */
  function AttemptMove(hotp: Hotp, s: Race, a: Attempt): Race {
    var r := Verified(hotp, a.code, s.stored, a.now);
    if r.Some? then s.(stored := r, written := s.written + [r.value]) else s
  }

  lemma AttemptIsReadThenWrite(hotp: Hotp, s: Race, a: Attempt)
    ensures AttemptMove(hotp, s, a) == WriteMove(ReadMove(hotp, s, a), |s.pending|)
  {
    var r := ReadMove(hotp, s, a);
    if |r.pending| > |s.pending| {
      assert r.pending[..|s.pending|] + r.pending[|s.pending| + 1..] == s.pending;
    }
  }

  function Serially(hotp: Hotp, s: Race, attempts: seq<Attempt>): Race
    decreases attempts
  {
    if attempts == [] then s else Serially(hotp, AttemptMove(hotp, s, attempts[0]), attempts[1..])
  }

  /** Whatever the secret, however the attempts in flight come to write, and whatever is attempted afterwards, one
      attempt after the other, no step is accepted twice. */
  ghost predicate Harmless(s: Race) {
    forall hotp: Hotp, order: seq<nat>, attempts: seq<Attempt> ::
      Writes(s, order).pending == [] ==> Once(multiset(Serially(hotp, Writes(s, order), attempts).written))
  }

  /** All steps differ, what is in flight is above everything, and what is stored is not below what was accepted. */
  ghost predicate Orderly(s: Race) {
    Once(multiset(s.written) + multiset(s.pending))
    && (forall p, x :: p in s.pending && (x in s.written || x in s.pending) ==> p >= x)
    && (s.pending == [] ==> forall x :: x in s.written ==> !Unused(s.stored, x))
  }

  lemma RepeatIsTwice(written: seq<int>, pending: seq<int>)
    ensures |pending| > 1 && pending[0] == pending[1] ==> !Once(multiset(written) + multiset(pending))
  {
    if |pending| > 1 && pending[0] == pending[1] {
      assert pending == [pending[0], pending[0]] + pending[2..];
      assert (multiset(written) + multiset(pending))[pending[0]] >= 2;
    }
  }

  lemma AtMostOnePending(s: Race)
    requires Orderly(s)
    ensures |s.pending| <= 1
  {
    assert |s.pending| > 1 ==> s.pending[0] in s.pending && s.pending[1] in s.pending;
    RepeatIsTwice(s.written, s.pending);
  }

  lemma WriteOrderly(s: Race, i: nat)
    requires Orderly(s)
    ensures Orderly(WriteMove(s, i))
  {
    AtMostOnePending(s);
    WriteMoves(s, i);
    if i < |s.pending| {
      var p := s.pending[i];
      assert WriteMove(s, i).pending == [] && p in s.pending;
      forall x | x in s.written + [p]
        ensures x <= p
      {
      }
    }
  }

  lemma {:induction false} WritesOrderly(s: Race, order: seq<nat>)
    requires Orderly(s)
    ensures Orderly(Writes(s, order))
    decreases order
  {
    if order != [] {
      WriteOrderly(s, order[0]);
      WritesOrderly(WriteMove(s, order[0]), order[1..]);
    }
  }

  lemma NewStepIsOnce(written: seq<int>, x: int)
    requires Once(multiset(written)) && x !in written
    ensures Once(multiset(written + [x]))
  {
    assert multiset(written + [x]) == multiset(written) + multiset{x};
  }

  lemma AttemptOrderly(hotp: Hotp, s: Race, a: Attempt)
    requires Orderly(s) && s.pending == []
    ensures Orderly(AttemptMove(hotp, s, a))
  {
    var r := Verified(hotp, a.code, s.stored, a.now);
    if r.Some? {
      AcceptedIsFresh(hotp, a.code, s.stored, a.now);
      assert multiset(s.written) + multiset(s.pending) == multiset(s.written);
      forall x | x in s.written
        ensures x < r.value
      {
        assert !Unused(s.stored, x);
      }
      NewStepIsOnce(s.written, r.value);
      assert multiset(s.written + [r.value]) + multiset(s.pending) == multiset(s.written + [r.value]);
    }
  }

  lemma {:induction false} SeriallyOrderly(hotp: Hotp, s: Race, attempts: seq<Attempt>)
    requires Orderly(s) && s.pending == []
    ensures Once(multiset(Serially(hotp, s, attempts).written))
    decreases attempts
  {
    if attempts == [] {
      assert multiset(s.written) + multiset(s.pending) == multiset(s.written);
    } else {
      AttemptOrderly(hotp, s, attempts[0]);
      SeriallyOrderly(hotp, AttemptMove(hotp, s, attempts[0]), attempts[1..]);
    }
  }

  /** Any step in flight can be the last to be written. */
  lemma {:induction false} WriteLast(s: Race, i: nat) returns (order: seq<nat>)
    requires i < |s.pending|
    ensures Writes(s, order).pending == [] && Writes(s, order).stored == Some(s.pending[i])
    decreases |s.pending|
  {
    if |s.pending| == 1 {
      order := [0];
      assert order[1..] == [];
      assert Writes(s, order) == Writes(WriteMove(s, 0), []);
    } else {
      var j := if i == 0 then 1 else 0;
      var rest := WriteLast(WriteMove(s, j), if j < i then i - 1 else i);
      order := [j] + rest;
      assert order[1..] == rest;
    }
  }

  lemma StepStarts(w: int)
    ensures CurrentStep(w as real * STEP_SECONDS) == w
  {
  }

  /** A step above the stored one can be accepted by a plain attempt with its code. */
  lemma Replay(s: Race, w: int) returns (hotp: Hotp, a: Attempt)
    requires Unused(s.stored, w)
    ensures AttemptMove(hotp, s, a).written == s.written + [w]
  {
    hotp := (n: int) => if n == w then "000000" else "";
    a := Attempt("000000", w as real * STEP_SECONDS);
    StepStarts(w);
    CleanDigits(a.code);
    assert Matches(hotp, a.code, a.now, w);
    AcceptedIff(hotp, a.code, s.stored, a.now);
    AcceptedIsFresh(hotp, a.code, s.stored, a.now);
  }

  lemma ReplayHarms(s: Race, order: seq<nat>, w: int)
    requires Writes(s, order).pending == [] && w in Writes(s, order).written && Unused(Writes(s, order).stored, w)
    ensures !Harmless(s)
  {
    var t := Writes(s, order);
    var hotp, a := Replay(t, w);
    assert Serially(hotp, t, [a]) == Serially(hotp, AttemptMove(hotp, t, a), [a][1..]) == AttemptMove(hotp, t, a);
    assert multiset(t.written + [w])[w] >= 2;
    assert !Once(multiset(Serially(hotp, Writes(s, order), [a]).written));
  }

  lemma RepeatHarms(s: Race)
    requires !Once(multiset(s.written) + multiset(s.pending))
    ensures !Harmless(s)
  {
    var order := WriteAll(s);
    WritesMove(s, order);
    var hotp: Hotp := (n: int) => "";
    assert Serially(hotp, Writes(s, order), []) == Writes(s, order);
    assert multiset(Writes(s, order).written) == multiset(s.written) + multiset(s.pending);
    assert !Once(multiset(Serially(hotp, Writes(s, order), []).written));
  }

  /** A step in flight below another step is written last, and the other one is accepted again. */
  lemma LowWriteHarms(s: Race, i: nat, x: int)
    requires i < |s.pending| && s.pending[i] < x && (x in s.written || x in s.pending)
    ensures !Harmless(s)
  {
    var order := WriteLast(s, i);
    WritesMove(s, order);
    assert multiset(Writes(s, order).written) == multiset(s.written) + multiset(s.pending);
    assert x in multiset(s.written) + multiset(s.pending);
    assert x in multiset(Writes(s, order).written);
    ReplayHarms(s, order, x);
  }

  /** However attempts came to overlap: no step will be accepted twice, by their writes or by later attempts, if and
      only if all steps differ, at most one is in flight and it is above every accepted one, and with none in flight
      the stored step is not below an accepted one. */
  lemma AcceptedTwiceIff(s: Race)
    ensures Harmless(s) <==> Orderly(s)
  {
    if Orderly(s) {
      forall hotp: Hotp, order: seq<nat>, attempts: seq<Attempt> | Writes(s, order).pending == []
        ensures Once(multiset(Serially(hotp, Writes(s, order), attempts).written))
      {
        WritesOrderly(s, order);
        SeriallyOrderly(hotp, Writes(s, order), attempts);
      }
    } else if !Once(multiset(s.written) + multiset(s.pending)) {
      RepeatHarms(s);
    } else if p, x :| p in s.pending && (x in s.written || x in s.pending) && p < x {
      var i :| 0 <= i < |s.pending| && s.pending[i] == p;
      LowWriteHarms(s, i, x);
    } else {
      var x :| x in s.written && Unused(s.stored, x);
      assert Writes(s, []) == s;
      ReplayHarms(s, [], x);
    }
  }

  /** Two attempts with the same code that both read before either writes will both be accepted. */
  lemma OverlapAcceptsTwice(hotp: Hotp, s: Race, a: Attempt)
    requires Verified(hotp, a.code, s.stored, a.now).Some?
    ensures var r := ReadMove(hotp, ReadMove(hotp, s, a), a);
            !Once(multiset(r.written) + multiset(r.pending)) && !Harmless(r)
  {
    var x := Verified(hotp, a.code, s.stored, a.now).value;
    var r := ReadMove(hotp, ReadMove(hotp, s, a), a);
    assert r.pending == s.pending + [x] + [x] && multiset(r.pending)[x] >= 2;
    assert (multiset(r.written) + multiset(r.pending))[x] >= 2;
    RepeatHarms(r);
  }

  const NO_ATTEMPTS := Race(None, [], [])

  lemma FirstMatchIsVerified(hotp: Hotp, code: string, last: Option<int>, now: real, step: int)
    requires WellFormed(code) && Matches(hotp, code, now, step) && Unused(last, step)
    requires forall n :: CurrentStep(now) - 1 <= n < step ==> hotp(n) != code
    ensures Verified(hotp, code, last, now) == Some(step)
  {
    CleanDigits(code);
    MatchIsFirst(hotp, code, CurrentStep(now), -DRIFT_STEPS);
  }

  lemma BothRead(hotp: Hotp, a: Attempt, b: Attempt, m: int, n: int)
    requires Verified(hotp, a.code, None, a.now) == Some(m) && Verified(hotp, b.code, None, b.now) == Some(n)
    ensures ReadMove(hotp, ReadMove(hotp, NO_ATTEMPTS, a), b) == Race(None, [m, n], [])
  {
  }

  lemma WrongOrder(m: int, n: int)
    ensures WriteMove(WriteMove(Race(None, [m, n], []), 1), 0) == Race(Some(m), [], [n, m])
  {
    assert WriteMove(Race(None, [m, n], []), 1) == Race(Some(n), [m], [n]);
  }

  /** Attempts with the codes `c0` and `c1` of steps 0 and 1 read before either writes, and write in the wrong order: the
      stored step goes down, and a plain replay of the later code is accepted, although all steps in flight differed. */
  lemma LoweredStepIsReplayed(hotp: Hotp, c0: string, c1: string)
    requires WellFormed(c0) && WellFormed(c1) && c0 != c1
    requires hotp(0) == c0 && hotp(1) == c1 && hotp(-1) != c0 && hotp(-1) != c1
    ensures var a, b := Attempt(c0, 0.0), Attempt(c1, 0.0);
            var r := ReadMove(hotp, ReadMove(hotp, NO_ATTEMPTS, a), b);
            r.pending == [0, 1] && Once(multiset(r.written) + multiset(r.pending)) &&
            AttemptMove(hotp, WriteMove(WriteMove(r, 1), 0), b).written == [1, 0, 1]
  {
    assert CurrentStep(0.0) == 0;
    CleanDigits(c0);
    CleanDigits(c1);
    FirstMatchIsVerified(hotp, c0, None, 0.0, 0);
    FirstMatchIsVerified(hotp, c1, None, 0.0, 1);
    FirstMatchIsVerified(hotp, c1, Some(0), 0.0, 1);
    BothRead(hotp, Attempt(c0, 0.0), Attempt(c1, 0.0), 0, 1);
    WrongOrder(0, 1);
  }
}
