/**
 Who is logged in, read off the calls alone. The ideal map of `SessionMachine` is shown to hold exactly the sessions
 that were created and not destroyed since, and the answers of the real machine are restated in these terms.
 */
module SessionLedger {
  import opened Wrappers
  import opened Sessions
  import opened SessionMachine

  /** What the clock shows after the events. */
  function ClockAfter(clock: int, es: seq<Event>): int {
    if es == [] then clock
    else if es[|es| - 1].Tick? then es[|es| - 1].to
    else ClockAfter(clock, es[..|es| - 1])
  }

  /** The session that the call begun at position `b` creates; its lifetime starts at its own clock reading. */
  function CreatedAt(duration: int, clock: int, es: seq<Event>, b: nat): Session
    requires b < |es| && es[b].BeginCreate?
  {
    var now := ClockAfter(clock, es[..b]);
    Session(es[b].token, es[b].username, now, now + duration)
  }

  /** The call begun at `b` has not inserted its session yet. */
  ghost predicate PendingAt(es: seq<Event>, b: nat) {
    b < |es| && es[b].BeginCreate? && forall j :: b < j < |es| ==> es[j] != Insert(es[b].id)
  }

  /** The call begun at `b` inserted its session at `i`, and nobody has destroyed the token since. */
  ghost predicate LiveAt(es: seq<Event>, b: nat, i: nat) {
    && b < i < |es| && es[b].BeginCreate? && es[i] == Insert(es[b].id)
    && (forall j :: b < j < i ==> es[j] != Insert(es[b].id))
    && (forall j :: i < j < |es| ==> es[j] != Destroy(es[b].token))
  }

  /** `session` was created for `token` in the run and has not been destroyed since. */
  ghost predicate Live(duration: int, clock: int, es: seq<Event>, token: Token, session: Session) {
    exists b: nat, i: nat :: LiveAt(es, b, i) && es[b].token == token && CreatedAt(duration, clock, es, b) == session
  }

  lemma CreatedStays(duration: int, clock: int, es: seq<Event>, e: Event, b: nat)
    requires b < |es| && es[b].BeginCreate?
    ensures CreatedAt(duration, clock, es + [e], b) == CreatedAt(duration, clock, es, b)
  {
    assert (es + [e])[..b] == es[..b];
  }

  lemma PendingNext(es: seq<Event>, e: Event, b: nat)
    requires b < |es|
    ensures PendingAt(es + [e], b) <==> PendingAt(es, b) && e != Insert(es[b].id)
  {
    if PendingAt(es + [e], b) {
      forall j | b < j < |es| ensures es[j] != Insert(es[b].id) {
        assert (es + [e])[j] == es[j];
      }
      assert (es + [e])[|es|] == e;
    }
  }

  lemma LiveNext(es: seq<Event>, e: Event, b: nat, i: nat)
    requires i < |es|
    ensures LiveAt(es + [e], b, i) <==> LiveAt(es, b, i) && e != Destroy(es[b].token)
  {
    if LiveAt(es + [e], b, i) {
      forall j | b < j < i ensures es[j] != Insert(es[b].id) {
        assert (es + [e])[j] == es[j];
      }
      forall j | i < j < |es| ensures es[j] != Destroy(es[b].token) {
        assert (es + [e])[j] == es[j];
      }
      assert (es + [e])[|es|] == e;
    }
  }

  lemma LiveLast(es: seq<Event>, e: Event, b: nat)
    ensures LiveAt(es + [e], b, |es|) <==> PendingAt(es, b) && e == Insert(es[b].id)
  {
    if b < |es| && es[b].BeginCreate? {
      assert (es + [e])[b] == es[b] && (es + [e])[|es|] == e;
      if LiveAt(es + [e], b, |es|) {
        forall j | b < j < |es| ensures es[j] != Insert(es[b].id) {
          assert (es + [e])[j] == es[j];
        }
      }
    }
  }

  /** The calls that are creating a session are the pending ones. */
  ghost predicate CreatingMatches(duration: int, clock: int, es: seq<Event>, s: State) {
    && (forall b: nat :: PendingAt(es, b) ==>
          es[b].id in s.creating && s.creating[es[b].id] == CreatedAt(duration, clock, es, b))
    && (forall id :: id in s.creating ==> exists b: nat :: PendingAt(es, b) && es[b].id == id)
  }

  /** The sessions in the map are the live ones. */
  ghost predicate SessionsMatch(duration: int, clock: int, es: seq<Event>, s: State) {
    && (forall b: nat, i: nat :: LiveAt(es, b, i) ==>
          es[b].token in s.sessions && s.sessions[es[b].token] == CreatedAt(duration, clock, es, b))
    && (forall t :: t in s.sessions ==> exists b: nat, i: nat :: LiveAt(es, b, i) && es[b].token == t)
  }

  lemma CreatingFollows(duration: int, clock: int, es: seq<Event>, s: State, e: Event)
    requires s.clock == ClockAfter(clock, es) && CreatingMatches(duration, clock, es, s) && Enabled(s, e)
    ensures CreatingMatches(duration, clock, es + [e], Step(duration, false, s, e))
  {
    var es', s' := es + [e], Step(duration, false, s, e);
    forall b: nat | PendingAt(es', b)
      ensures es'[b].id in s'.creating && s'.creating[es'[b].id] == CreatedAt(duration, clock, es', b)
    {
      if b < |es| {
        PendingNext(es, e, b);
        CreatedStays(duration, clock, es, e, b);
      } else {
        assert es'[..b] == es;
      }
    }
    forall id | id in s'.creating ensures exists b: nat :: PendingAt(es', b) && es'[b].id == id {
      if id in s.creating {
        var b: nat :| PendingAt(es, b) && es[b].id == id;
        PendingNext(es, e, b);
        assert PendingAt(es', b);
      } else {
        assert PendingAt(es', |es|);
      }
    }
  }

  /** In the ideal map a session stays until its token is destroyed. */
  lemma SessionStays(duration: int, s: State, e: Event, t: Token)
    requires Unique(s) && Enabled(s, e) && t in s.sessions && e != Destroy(t)
    ensures t in Step(duration, false, s, e).sessions && Step(duration, false, s, e).sessions[t] == s.sessions[t]
  {
    assert Settled(s, t);
  }

  lemma LiveFollows(duration: int, clock: int, es: seq<Event>, s: State, e: Event, b: nat, i: nat)
    requires SessionsMatch(duration, clock, es, s) && Unique(s) && Enabled(s, e)
    requires i < |es| && LiveAt(es + [e], b, i)
    ensures var s' := Step(duration, false, s, e);
            && es[b].token in s'.sessions && s'.sessions[es[b].token] == CreatedAt(duration, clock, es, b)
  {
    LiveNext(es, e, b, i);
    SessionStays(duration, s, e, es[b].token);
  }

  lemma InsertedFollows(duration: int, clock: int, es: seq<Event>, s: State, e: Event, b: nat)
    requires CreatingMatches(duration, clock, es, s) && Enabled(s, e) && LiveAt(es + [e], b, |es|)
    ensures b < |es| && es[b].BeginCreate?
    ensures var s' := Step(duration, false, s, e);
            && es[b].token in s'.sessions && s'.sessions[es[b].token] == CreatedAt(duration, clock, es, b)
  {
    LiveLast(es, e, b);
    assert s.creating[es[b].id].token == es[b].token;
  }

  lemma LiveIsInMap(duration: int, clock: int, es: seq<Event>, s: State, e: Event, b: nat, i: nat)
    requires CreatingMatches(duration, clock, es, s) && SessionsMatch(duration, clock, es, s)
    requires Unique(s) && Enabled(s, e) && LiveAt(es + [e], b, i)
    ensures var s', t := Step(duration, false, s, e), (es + [e])[b].token;
            t in s'.sessions && s'.sessions[t] == CreatedAt(duration, clock, es + [e], b)
  {
    if i < |es| {
      LiveFollows(duration, clock, es, s, e, b, i);
    } else {
      InsertedFollows(duration, clock, es, s, e, b);
    }
    CreatedStays(duration, clock, es, e, b);
  }

  lemma OriginOfToken(duration: int, s: State, e: Event, t: Token)
    requires Enabled(s, e) && t in Step(duration, false, s, e).sessions
    ensures (t in s.sessions && e != Destroy(t)) || (e.Insert? && s.creating[e.id].token == t)
  {
  }

  lemma OldSessionIsLive(duration: int, clock: int, es: seq<Event>, s: State, e: Event, t: Token)
    requires SessionsMatch(duration, clock, es, s) && t in s.sessions && e != Destroy(t)
    ensures exists b: nat, i: nat :: LiveAt(es + [e], b, i) && (es + [e])[b].token == t
  {
    var b: nat, i: nat :| LiveAt(es, b, i) && es[b].token == t;
    LiveNext(es, e, b, i);
    assert LiveAt(es + [e], b, i) && (es + [e])[b].token == t;
  }

  lemma InsertedIsLive(duration: int, clock: int, es: seq<Event>, s: State, id: nat)
    requires CreatingMatches(duration, clock, es, s) && id in s.creating
    ensures exists b: nat, i: nat ::
              LiveAt(es + [Insert(id)], b, i) && (es + [Insert(id)])[b].token == s.creating[id].token
  {
    var b: nat :| PendingAt(es, b) && es[b].id == id;
    LiveLast(es, Insert(id), b);
    assert LiveAt(es + [Insert(id)], b, |es|) && (es + [Insert(id)])[b].token == s.creating[id].token;
  }

  lemma InMapIsLive(duration: int, clock: int, es: seq<Event>, s: State, e: Event, t: Token)
    requires CreatingMatches(duration, clock, es, s) && SessionsMatch(duration, clock, es, s)
    requires Enabled(s, e) && t in Step(duration, false, s, e).sessions
    ensures exists b: nat, i: nat :: LiveAt(es + [e], b, i) && (es + [e])[b].token == t
  {
    OriginOfToken(duration, s, e, t);
    if t in s.sessions && e != Destroy(t) {
      OldSessionIsLive(duration, clock, es, s, e, t);
    } else {
      InsertedIsLive(duration, clock, es, s, e.id);
    }
  }

  lemma SessionsFollow(duration: int, clock: int, es: seq<Event>, s: State, e: Event)
    requires CreatingMatches(duration, clock, es, s) && SessionsMatch(duration, clock, es, s)
    requires Unique(s) && Enabled(s, e)
    ensures SessionsMatch(duration, clock, es + [e], Step(duration, false, s, e))
  {
    var es', s' := es + [e], Step(duration, false, s, e);
    forall b: nat, i: nat | LiveAt(es', b, i)
      ensures es'[b].token in s'.sessions && s'.sessions[es'[b].token] == CreatedAt(duration, clock, es', b)
    {
      LiveIsInMap(duration, clock, es, s, e, b, i);
    }
    forall t | t in s'.sessions ensures exists b: nat, i: nat :: LiveAt(es', b, i) && es'[b].token == t {
      InMapIsLive(duration, clock, es, s, e, t);
    }
  }

  lemma LastStepOf(duration: int, s: State, es: seq<Event>)
    requires es != [] && IsRun(duration, false, s, es)
    ensures var init, e := es[..|es| - 1], es[|es| - 1];
            && IsRun(duration, false, s, init) && Enabled(End(duration, false, s, init), e)
            && End(duration, false, s, es) == Step(duration, false, End(duration, false, s, init), e)
  {
    RunSplits(duration, false, s, es, |es| - 1);
    assert es[|es| - 1..] == [es[|es| - 1]];
    LastStep(duration, End(duration, false, s, es[..|es| - 1]), es[|es| - 1]);
  }

  lemma {:induction false} LedgerMatches(duration: int, clock: int, es: seq<Event>)
    requires IsRun(duration, false, Init(clock), es)
    ensures var i := End(duration, false, Init(clock), es);
            && Unique(i) && i.clock == ClockAfter(clock, es)
            && CreatingMatches(duration, clock, es, i) && SessionsMatch(duration, clock, es, i)
    decreases |es|
  {
    if es != [] {
      var init, e := es[..|es| - 1], es[|es| - 1];
      LastStepOf(duration, Init(clock), es);
      LedgerMatches(duration, clock, init);
      var i := End(duration, false, Init(clock), init);
      assert es == init + [e];
      IdealStepKeepsUnique(duration, i, e);
      CreatingFollows(duration, clock, init, i, e);
      SessionsFollow(duration, clock, init, i, e);
    }
  }

  /** The ideal map holds exactly the sessions created and not destroyed since, with their lifetimes. */
  lemma IdealIsTheLedger(duration: int, clock: int, es: seq<Event>, token: Token, session: Session)
    requires IsRun(duration, false, Init(clock), es)
    ensures var ideal := End(duration, false, Init(clock), es).sessions;
            (token in ideal && ideal[token] == session) <==> Live(duration, clock, es, token, session)
  {
    LedgerMatches(duration, clock, es);
    var ideal := End(duration, false, Init(clock), es).sessions;
    if token in ideal {
      var b: nat, i: nat :| LiveAt(es, b, i) && es[b].token == token;
      assert ideal[token] == CreatedAt(duration, clock, es, b);
    }
  }

  /**
   What a validation answers in any run of the real machine, whenever the reaper and the lazy evictions run: the session
   that had been created for the token and not destroyed by the time of the lookup, if the clock at the check has not
   passed its lifetime, and nothing otherwise.
   */
  lemma ValidationAnswersFromLedger(duration: int, clock: int, es: seq<Event>, id: nat, token: Token, k: nat)
    requires |es| >= 2 && k < |es| - 1
    requires IsRun(duration, true, Init(clock), es)
    requires es[k] == Lookup(id, token) && es[|es| - 1] == Check(id) && Check(id) !in es[k + 1..|es| - 1]
    ensures id in End(duration, true, Init(clock), es).answers
    ensures forall session ::
              End(duration, true, Init(clock), es).answers[id] == Some(session) <==>
              Live(duration, clock, es[..k], token, session) && ClockAfter(clock, es) <= session.expiresAt
  {
    ValidationAnswers(duration, clock, es, id, token, k);
    EvictionIsInvisible(duration, clock, es);
    LedgerMatches(duration, clock, es);
    forall session
      ensures End(duration, true, Init(clock), es).answers[id] == Some(session) <==>
              Live(duration, clock, es[..k], token, session) && ClockAfter(clock, es) <= session.expiresAt
    {
      IdealIsTheLedger(duration, clock, es[..k], token, session);
    }
  }

  /** At every moment the unexpired part of the real map is the unexpired part of the ledger. */
  lemma UnexpiredIsTheLedger(duration: int, clock: int, es: seq<Event>, token: Token, session: Session)
    requires IsRun(duration, true, Init(clock), es) && ClockAfter(clock, es) <= session.expiresAt
    ensures var s := End(duration, true, Init(clock), es);
            (token in s.sessions && s.sessions[token] == session) <==> Live(duration, clock, es, token, session)
  {
    EvictionIsInvisible(duration, clock, es);
    LedgerMatches(duration, clock, es);
    IdealIsTheLedger(duration, clock, es, token, session);
    var s, i := End(duration, true, Init(clock), es), End(duration, false, Init(clock), es);
    assert token in Unexpired(s.sessions, s.clock) <==> token in Unexpired(i.sessions, i.clock);
  }

  lemma LiveIsInsertedLater(es: seq<Event>, b: nat, i: nat, d: nat)
    requires LiveAt(es, b, i) && d < |es| && es[d] == Destroy(es[b].token)
    ensures d < i
  {
  }

  /** After a logout no validation that looks the token up succeeds, at any later time. */
  lemma NoLoginAfterLogout(duration: int, clock: int, es: seq<Event>, id: nat, token: Token, d: nat, k: nat)
    requires d < k < |es| - 1 && IsRun(duration, true, Init(clock), es)
    requires es[d] == Destroy(token) && forall j :: d < j < k && es[j].Insert? ==> InsertsOther(es, j, token)
    requires es[k] == Lookup(id, token) && es[|es| - 1] == Check(id) && Check(id) !in es[k + 1..|es| - 1]
    ensures id in End(duration, true, Init(clock), es).answers
    ensures End(duration, true, Init(clock), es).answers[id] == None
  {
    ValidationAnswersFromLedger(duration, clock, es, id, token, k);
    var answer := End(duration, true, Init(clock), es).answers[id];
    if answer.Some? {
      assert Live(duration, clock, es[..k], token, answer.value);
      var b: nat, i: nat :| LiveAt(es[..k], b, i) && es[..k][b].token == token;
      LiveIsInsertedLater(es[..k], b, i, d);
      assert false;
    }
  }

  /** The insertion at `j` is of a session with another token. */
  ghost predicate InsertsOther(es: seq<Event>, j: nat, token: Token)
    requires j < |es| && es[j].Insert?
  {
    forall b :: 0 <= b < j && es[b].BeginCreate? && es[b].id == es[j].id ==> es[b].token != token
  }

  /** A tick of the reaper leaves exactly the sessions whose lifetime the clock has not passed. */
  lemma ReapLeavesUnexpired(duration: int, s: State, token: Token)
    ensures var s' := Step(duration, true, s, Reap);
            && (token in s'.sessions <==> token in s.sessions && s.clock <= s.sessions[token].expiresAt)
            && (token in s'.sessions ==> s'.sessions[token] == s.sessions[token])
  {
  }
}
