/** Login sessions that expire and are removed lazily, by validation, and by a periodic reaper (auth/session.go). */
module Sessions {
  import opened Wrappers

  type Token = string

  datatype Session = Session(token: Token, username: string, createdAt: int, expiresAt: int)

  function Expired(session: Session, now: int): bool {
    now > session.expiresAt
  }

  /** The map after the reaper ran at time `now`. */
  function Unexpired(sessions: map<Token, Session>, now: int): map<Token, Session> {
    map t | t in sessions && !Expired(sessions[t], now) :: sessions[t]
  }

  /** Each method is one critical section of the Go type, except ValidateSession, which has up to two. */
  class SessionManager {
    var sessions: map<Token, Session>
    const duration: int

    constructor (duration: int)
      ensures this.duration == duration && sessions == map[]
    {
      this.duration, sessions := duration, map[];
    }

    /** `now` is read before the lock is taken. */
    method CreateSession(username: string, token: Token, now: int) returns (session: Session)
      modifies this
      ensures session == Session(token, username, now, now + duration)
      ensures sessions == old(sessions)[token := session]
    {
      session := Session(token, username, now, now + duration);
      sessions := sessions[token := session];
    }

    method Lookup(token: Token) returns (found: Option<Session>)
      ensures found == if token in sessions then Some(sessions[token]) else None
    {
      found := if token in sessions then Some(sessions[token]) else None;
    }

    method DestroySession(token: Token)
      modifies this
      ensures sessions == old(sessions) - {token}
    {
      if token in sessions {
        sessions := sessions - {token};
      } else {
        assert sessions - {token} == sessions;
      }
    }

    /** Validation with nothing in between: true exactly for a stored session that has not expired, which is kept. */
    method ValidateSession(token: Token, now: int) returns (found: Option<Session>)
      modifies this
      ensures found.Some? <==> token in Unexpired(old(sessions), now)
      ensures found.Some? ==> found.value == old(sessions)[token] && sessions == old(sessions)
      ensures found.None? ==> sessions == old(sessions) - {token}
    {
      found := Lookup(token);
      if found.None? {
        assert sessions - {token} == sessions;
        return None;
      }
      if Expired(found.value, now) {
        DestroySession(token);
        return None;
      }
    }

    /** One tick of the reaper: walks over the keys, deletes what has expired and counts it. */
    method Reap(now: int) returns (reaped: nat)
      modifies this
      ensures sessions == Unexpired(old(sessions), now)
      ensures reaped == |old(sessions)| - |sessions|
    {
      reaped := 0;
      var todo := sessions.Keys;
      while todo != {}
        invariant todo <= sessions.Keys <= old(sessions).Keys
        invariant forall t :: t in sessions ==> sessions[t] == old(sessions)[t]
        invariant forall t :: t in old(sessions) && t !in todo ==> (t in sessions <==> !Expired(old(sessions)[t], now))
        invariant reaped == |old(sessions)| - |sessions|
        decreases todo
      {
        var t :| t in todo;
        if Expired(sessions[t], now) {
          RemovalCount(sessions, t);
          sessions := sessions - {t};
          reaped := reaped + 1;
        }
        todo := todo - {t};
      }
    }
  }

  lemma RemovalCount(m: map<Token, Session>, t: Token)
    requires t in m
    ensures |m - {t}| == |m| - 1
  {
    assert (m - {t}).Keys == m.Keys - {t};
    assert |(m - {t}).Keys| == |m - {t}| && |m.Keys| == |m|;
  }
}

/**
 All calls of one session manager interleaved, cut at every lock and clock read. With `evicts` false the same machine
 never removes an expired session: that is the ideal "created and not destroyed" map.
 */
module SessionMachine {
  import opened Wrappers
  import opened Sessions

  datatype Validation = Validation(token: Token, found: Option<Session>)

  datatype State = State(
    clock: int,
    sessions: map<Token, Session>,
    issued: set<Token>,
    creating: map<nat, Session>,
    validating: map<nat, Validation>,
    evictions: set<Token>,
    answers: map<nat, Option<Session>>)

  datatype Event =
    | Tick(to: int)
    | BeginCreate(id: nat, token: Token, username: string)
    | Insert(id: nat)
    | Lookup(id: nat, token: Token)
    | Check(id: nat)
    | Evict(token: Token)
    | Destroy(token: Token)
    | Reap

  function Init(clock: int): State {
    State(clock, map[], {}, map[], map[], {}, map[])
  }

  /** The clock never goes back, tokens are fresh, and every validation call has its own number. */
  predicate Enabled(s: State, e: Event) {
    match e
    case Tick(to) => to >= s.clock
    case BeginCreate(id, token, _) => id !in s.creating && token !in s.issued
    case Insert(id) => id in s.creating
    case Lookup(id, _) => id !in s.validating && id !in s.answers
    case Check(id) => id in s.validating
    case Evict(token) => token in s.evictions
    case Destroy(_) => true
    case Reap => true
  }

  function Find(sessions: map<Token, Session>, token: Token): Option<Session> {
    if token in sessions then Some(sessions[token]) else None
  }

  function Answer(v: Validation, now: int): Option<Session> {
    if v.found.Some? && !Expired(v.found.value, now) then v.found else None
  }

  function Step(duration: int, evicts: bool, s: State, e: Event): State
    requires Enabled(s, e)
  {
    match e
    case Tick(to) => s.(clock := to)
    case BeginCreate(id, token, username) =>
      s.(issued := s.issued + {token},
         creating := s.creating[id := Session(token, username, s.clock, s.clock + duration)])
    case Insert(id) =>
      s.(sessions := s.sessions[s.creating[id].token := s.creating[id]], creating := s.creating - {id})
    case Lookup(id, token) =>
      s.(validating := s.validating[id := Validation(token, Find(s.sessions, token))])
    case Check(id) =>
      var v := s.validating[id];
      s.(validating := s.validating - {id},
         answers := s.answers[id := Answer(v, s.clock)],
         evictions := if v.found.Some? && Expired(v.found.value, s.clock) then s.evictions + {v.token} else s.evictions)
    case Evict(token) =>
      s.(evictions := s.evictions - {token}, sessions := if evicts then s.sessions - {token} else s.sessions)
    case Destroy(token) =>
      s.(sessions := s.sessions - {token})
    case Reap =>
      s.(sessions := if evicts then Unexpired(s.sessions, s.clock) else s.sessions)
  }

  predicate IsRun(duration: int, evicts: bool, s: State, es: seq<Event>)
    decreases |es|
  {
    es != [] ==> Enabled(s, es[0]) && IsRun(duration, evicts, Step(duration, evicts, s, es[0]), es[1..])
  }

  function End(duration: int, evicts: bool, s: State, es: seq<Event>): State
    requires IsRun(duration, evicts, s, es)
    decreases |es|
  {
    if es == [] then s else End(duration, evicts, Step(duration, evicts, s, es[0]), es[1..])
  }

  /** No session that is still being created has this token. */
  ghost predicate Settled(i: State, token: Token) {
    token in i.issued && forall id :: id in i.creating ==> i.creating[id].token != token
  }

  /** In the ideal machine a token names at most one session, ever. */
  ghost predicate Unique(i: State) {
    && (forall t :: t in i.sessions ==> i.sessions[t].token == t && Settled(i, t))
    && (forall id :: id in i.creating ==> i.creating[id].token in i.issued)
    && (forall id, id' :: id in i.creating && id' in i.creating && id != id' ==>
          i.creating[id].token != i.creating[id'].token)
    && (forall id :: id in i.validating && i.validating[id].found.Some? ==>
          && Settled(i, i.validating[id].token)
          && (i.validating[id].token in i.sessions ==>
                i.sessions[i.validating[id].token] == i.validating[id].found.value))
    && (forall t :: t in i.evictions ==> Settled(i, t) && (t in i.sessions ==> Expired(i.sessions[t], i.clock)))
  }

  predicate SameValidation(v: Validation, w: Validation, now: int) {
    v.token == w.token && (v.found == w.found || (v.found.None? && Expired(w.found.value, now)))
  }

  ghost predicate SameSessions(s: State, i: State) {
    && (forall t :: t in s.sessions ==> t in i.sessions && s.sessions[t] == i.sessions[t])
    && (forall t :: t in i.sessions && t !in s.sessions ==> Expired(i.sessions[t], i.clock))
  }

  ghost predicate SameCalls(s: State, i: State) {
    && s.clock == i.clock && s.issued == i.issued && s.creating == i.creating && s.answers == i.answers
    && s.evictions <= i.evictions
    && s.validating.Keys == i.validating.Keys
    && (forall id :: id in s.validating ==> SameValidation(s.validating[id], i.validating[id], i.clock))
  }

  /** The real state against the ideal one: they differ only in sessions that have expired. */
  ghost predicate Refines(s: State, i: State) {
    SameSessions(s, i) && SameCalls(s, i)
  }

  lemma IdealStepKeepsUnique(duration: int, i: State, e: Event)
    requires Unique(i) && Enabled(i, e)
    ensures Unique(Step(duration, false, i, e))
  {
  }

  lemma StepKeepsSameCalls(duration: int, s: State, i: State, e: Event)
    requires Refines(s, i) && Enabled(s, e)
    ensures Enabled(i, e) && SameCalls(Step(duration, true, s, e), Step(duration, false, i, e))
  {
  }

  /** A token whose eviction is due is not in use by a session that has not expired. */
  lemma StepKeepsSameSessions(duration: int, s: State, i: State, e: Event)
    requires Refines(s, i) && Unique(i) && Enabled(s, e) && Enabled(i, e)
    ensures SameSessions(Step(duration, true, s, e), Step(duration, false, i, e))
  {
  }

  lemma StepRefines(duration: int, s: State, i: State, e: Event)
    requires Refines(s, i) && Unique(i) && Enabled(s, e)
    ensures Enabled(i, e) && Refines(Step(duration, true, s, e), Step(duration, false, i, e))
  {
    StepKeepsSameCalls(duration, s, i, e);
    StepKeepsSameSessions(duration, s, i, e);
  }

  lemma {:induction false} RunRefines(duration: int, s: State, i: State, es: seq<Event>)
    requires Refines(s, i) && Unique(i) && IsRun(duration, true, s, es)
    ensures IsRun(duration, false, i, es)
    ensures Refines(End(duration, true, s, es), End(duration, false, i, es))
    decreases |es|
  {
    if es != [] {
      StepRefines(duration, s, i, es[0]);
      IdealStepKeepsUnique(duration, i, es[0]);
      RunRefines(duration, Step(duration, true, s, es[0]), Step(duration, false, i, es[0]), es[1..]);
    }
  }

  /**
   When the reaper and the lazy evictions run is invisible: every run answers every validation exactly as the map
   that never removes an expired session, and the unexpired part of the two maps is always the same.
   */
  lemma EvictionIsInvisible(duration: int, clock: int, es: seq<Event>)
    requires IsRun(duration, true, Init(clock), es)
    ensures IsRun(duration, false, Init(clock), es)
    ensures var s, i := End(duration, true, Init(clock), es), End(duration, false, Init(clock), es);
            && s.clock == i.clock && s.answers == i.answers
            && Unexpired(s.sessions, s.clock) == Unexpired(i.sessions, i.clock)
  {
    RunRefines(duration, Init(clock), Init(clock), es);
  }

  lemma {:induction false} RunSplits(duration: int, evicts: bool, s: State, es: seq<Event>, k: nat)
    requires IsRun(duration, evicts, s, es) && k <= |es|
    ensures IsRun(duration, evicts, s, es[..k])
    ensures IsRun(duration, evicts, End(duration, evicts, s, es[..k]), es[k..])
    ensures End(duration, evicts, End(duration, evicts, s, es[..k]), es[k..]) == End(duration, evicts, s, es)
    decreases |es|
  {
    if k > 0 {
      RunSplits(duration, evicts, Step(duration, evicts, s, es[0]), es[1..], k - 1);
      assert es[..k][1..] == es[1..][..k - 1] && es[k..] == es[1..][k - 1..];
    }
  }

  /** A looked-up session and a given answer stay as they are until their call ends. */
  lemma {:induction false} LookupPersists(duration: int, evicts: bool, s: State, es: seq<Event>, id: nat)
    requires IsRun(duration, evicts, s, es) && id in s.validating && id !in s.answers
    requires Check(id) !in es
    ensures var t := End(duration, evicts, s, es); id in t.validating && t.validating[id] == s.validating[id]
    decreases |es|
  {
    if es != [] {
      assert es[0] in es && es[0] != Check(id);
      assert Check(id) !in es[1..];
      LookupPersists(duration, evicts, Step(duration, evicts, s, es[0]), es[1..], id);
    }
  }

  /** A lookup, any other events, and the check that ends the call. */
  lemma CheckAnswersLookup(duration: int, i: State, middle: seq<Event>, id: nat, token: Token)
    requires Enabled(i, Lookup(id, token))
    requires IsRun(duration, false, Step(duration, false, i, Lookup(id, token)), middle)
    requires Check(id) !in middle
    requires var j := End(duration, false, Step(duration, false, i, Lookup(id, token)), middle);
             IsRun(duration, false, j, [Check(id)])
    ensures var j := End(duration, false, Step(duration, false, i, Lookup(id, token)), middle);
            var t := End(duration, false, j, [Check(id)]);
            && id in t.answers
            && t.answers[id] == if token in i.sessions && t.clock <= i.sessions[token].expiresAt
                                then Some(i.sessions[token]) else None
  {
    var i' := Step(duration, false, i, Lookup(id, token));
    LookupPersists(duration, false, i', middle, id);
    LastStep(duration, End(duration, false, i', middle), Check(id));
  }

  /**
   What a validation answers, in any run of the real machine: the session found when it looked, in the ideal map of
   sessions created and not destroyed, if that session has not expired when the clock is read, and nothing otherwise.
   */
  lemma ValidationAnswers(duration: int, clock: int, es: seq<Event>, id: nat, token: Token, k: nat)
    requires |es| >= 2 && k < |es| - 1
    requires IsRun(duration, true, Init(clock), es)
    requires es[k] == Lookup(id, token) && es[|es| - 1] == Check(id) && Check(id) !in es[k + 1..|es| - 1]
    ensures IsRun(duration, false, Init(clock), es[..k])
    ensures var t := End(duration, true, Init(clock), es);
            var ideal := End(duration, false, Init(clock), es[..k]).sessions;
            && id in t.answers
            && t.answers[id] == if token in ideal && t.clock <= ideal[token].expiresAt then Some(ideal[token]) else None
  {
    EvictionIsInvisible(duration, clock, es);
    RunSplits(duration, false, Init(clock), es, k);
    var i, rest := End(duration, false, Init(clock), es[..k]), es[k..];
    var middle := es[k + 1..|es| - 1];
    RunSplits(duration, false, Step(duration, false, i, rest[0]), rest[1..], |middle|);
    assert rest[1..][..|middle|] == middle && rest[1..][|middle|..] == [Check(id)];
    CheckAnswersLookup(duration, i, middle, id, token);
  }

  lemma LastStep(duration: int, j: State, e: Event)
    requires IsRun(duration, false, j, [e])
    ensures End(duration, false, j, [e]) == Step(duration, false, j, e)
  {
  }

  /** What ValidateSession does when nothing comes between its critical sections. */
  function ValidationSteps(s: State, id: nat, token: Token): seq<Event> {
    var expired := token in s.sessions && Expired(s.sessions[token], s.clock);
    [Lookup(id, token)] + ([Check(id)] + if expired then [Evict(token)] else [])
  }

  lemma RunPrepend(duration: int, s: State, e: Event, rest: seq<Event>)
    requires Enabled(s, e) && IsRun(duration, true, Step(duration, true, s, e), rest)
    ensures IsRun(duration, true, s, [e] + rest)
    ensures End(duration, true, s, [e] + rest) == End(duration, true, Step(duration, true, s, e), rest)
  {
    assert ([e] + rest)[1..] == rest;
  }

  /** Undisturbed, the steps of a validation have the contract of `SessionManager.ValidateSession`. */
  lemma UndisturbedValidation(duration: int, s: State, id: nat, token: Token)
    requires id !in s.validating && id !in s.answers
    ensures var es := ValidationSteps(s, id, token);
            && IsRun(duration, true, s, es)
            && var t := End(duration, true, s, es);
               && t.validating == s.validating && t.clock == s.clock
               && id in t.answers
               && (t.answers[id].Some? <==> token in Unexpired(s.sessions, s.clock))
               && (t.answers[id].Some? ==> t.answers[id].value == s.sessions[token] && t.sessions == s.sessions)
               && (t.answers[id].None? ==> t.sessions == s.sessions - {token})
  {
    var s1 := Step(duration, true, s, Lookup(id, token));
    var s2 := Step(duration, true, s1, Check(id));
    assert s1.validating - {id} == s.validating;
    if token in s.sessions && Expired(s.sessions[token], s.clock) {
      RunPrepend(duration, s2, Evict(token), []);
      assert [Evict(token)] + [] == [Evict(token)];
      RunPrepend(duration, s1, Check(id), [Evict(token)]);
      RunPrepend(duration, s, Lookup(id, token), [Check(id)] + [Evict(token)]);
    } else {
      assert token !in s.sessions ==> s.sessions - {token} == s.sessions;
      RunPrepend(duration, s1, Check(id), []);
      RunPrepend(duration, s, Lookup(id, token), [Check(id)] + []);
    }
  }
}
