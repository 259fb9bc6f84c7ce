/** User accounts kept in memory and saved to one file (auth/auth.go). */
module UserStore {
  import opened Wrappers

  datatype User = User(username: string, displayName: string, passwordHash: string, createdAt: string)

  type Users = map<string, User>

  datatype Disk = Absent | Corrupt | Content(users: Users)

  /** `os.WriteFile` may fail before or after it has damaged the file. */
  datatype WriteOutcome = Written | FailedUntouched | FailedCorrupting

  datatype RegisterError = UsernameTooShort | PasswordTooShort | UsernameTaken | HashingFailed

  /** A request to register; `hash` is what bcrypt made of the password, None when it refused. */
  datatype Registration = Registration(username: string, displayName: string, password: string,
                                       hash: Option<string>, createdAt: string)

  /** The first failing check of RegisterUser, in its order. */
  function Rejection(users: Users, r: Registration): Option<RegisterError> {
    if |r.username| < 2 then Some(UsernameTooShort)
    else if |r.password| < 6 then Some(PasswordTooShort)
    else if r.username in users then Some(UsernameTaken)
    else if r.hash.None? then Some(HashingFailed)
    else None
  }

  function NewUser(r: Registration): User
    requires r.hash.Some?
  {
    User(r.username, if r.displayName == "" then r.username else r.displayName, r.hash.value, r.createdAt)
  }

  function AfterRegister(users: Users, r: Registration): Users {
    if Rejection(users, r).Some? then users else users[r.username := NewUser(r)]
  }

  function AfterWrite(disk: Disk, data: Users, outcome: WriteOutcome): Disk {
    match outcome
    case Written => Content(data)
    case FailedUntouched => disk
    case FailedCorrupting => Corrupt
  }

  /** What a start-up reads: an absent, unparsable or unreadable file gives an empty store ("starting fresh"). */
  function Loaded(disk: Disk, readable: bool): Users {
    if readable && disk.Content? then disk.users else map[]
  }

  function UsersOnDisk(disk: Disk): Users {
    if disk.Content? then disk.users else map[]
  }

  class Store {
    var users: Users
    var dirty: bool
    var disk: Disk

    constructor (disk: Disk, readable: bool)
      ensures this.disk == disk && users == Loaded(disk, readable) && !dirty
    {
      this.disk := disk;
      users, dirty := map[], false;
      if readable && disk.Content? {
        users := disk.users;
      }
    }

    method RegisterUser(r: Registration) returns (error: Option<RegisterError>)
      modifies this`users, this`dirty
      ensures error == Rejection(old(users), r)
      ensures users == AfterRegister(old(users), r)
      ensures dirty == (old(dirty) || error.None?)
    {
      if |r.username| < 2 {
        return Some(UsernameTooShort);
      }
      if |r.password| < 6 {
        return Some(PasswordTooShort);
      }
      var displayName := if r.displayName == "" then r.username else r.displayName;
      if r.username in users {
        return Some(UsernameTaken);
      }
      if r.hash.None? {
        return Some(HashingFailed);
      }
      users := users[r.username := User(r.username, displayName, r.hash.value, r.createdAt)];
      dirty := true;
      return None;
    }

    /** The part of SaveToFile under the lock: the flag is cleared before anything is written. */
    method Snapshot() returns (data: Users)
      modifies this`dirty
      ensures data == users && !dirty
    {
      data := users;
      dirty := false;
    }

    method WriteFile(data: Users, outcome: WriteOutcome) returns (ok: bool)
      modifies this`disk
      ensures ok <==> outcome.Written?
      ensures disk == AfterWrite(old(disk), data, outcome)
    {
      match outcome {
        case Written => disk := Content(data);
        case FailedUntouched =>
        case FailedCorrupting => disk := Corrupt;
      }
      ok := outcome.Written?;
    }

    method SaveToFile(outcome: WriteOutcome) returns (ok: bool)
      modifies this`dirty, this`disk
      ensures ok <==> outcome.Written?
      ensures !dirty && disk == AfterWrite(old(disk), users, outcome)
    {
      var data := Snapshot();
      ok := WriteFile(data, outcome);
    }

    /** One tick of the auto-save loop. */
    method AutoSave(outcome: WriteOutcome)
      modifies this`dirty, this`disk
      ensures !dirty
      ensures disk == if old(dirty) then AfterWrite(old(disk), users, outcome) else old(disk)
    {
      var needsSave := dirty;
      if needsSave {
        var _ := SaveToFile(outcome);
      }
    }
  }
}

/** Registrations, saves and auto-saves interleaved, with every save cut between its snapshot and its write. */
module PersistenceMachine {
  import opened Wrappers
  import opened UserStore

  /** `requested` saves have been called, `held` saves have their snapshot; `past` lists all values `users` had. */
  datatype State = State(users: Users, dirty: bool, disk: Disk, requested: set<nat>, held: map<nat, Users>,
                         past: seq<Users>)

  datatype Event =
    | Register(r: Registration)
    | CallSave(id: nat)
    | AutoTick(id: nat)
    | TakeSnapshot(id: nat)
    | Write(id: nat, outcome: WriteOutcome)

  function Start(disk: Disk, readable: bool): State {
    State(Loaded(disk, readable), false, disk, {}, map[], [Loaded(disk, readable)])
  }

  predicate Enabled(s: State, e: Event) {
    match e
    case Register(_) => true
    case CallSave(id) => id !in s.requested && id !in s.held
    case AutoTick(id) => id !in s.requested && id !in s.held
    case TakeSnapshot(id) => id in s.requested
    case Write(id, _) => id in s.held
  }

  function Step(s: State, e: Event): State
    requires Enabled(s, e)
  {
    match e
    case Register(r) =>
      var users := AfterRegister(s.users, r);
      s.(users := users, dirty := s.dirty || Rejection(s.users, r).None?, past := s.past + [users])
    case CallSave(id) => s.(requested := s.requested + {id})
    case AutoTick(id) => if s.dirty then s.(requested := s.requested + {id}) else s
    case TakeSnapshot(id) =>
      s.(requested := s.requested - {id}, held := s.held[id := s.users], dirty := false)
    case Write(id, outcome) =>
      s.(disk := AfterWrite(s.disk, s.held[id], outcome), held := s.held - {id})
  }

  predicate IsRun(s: State, es: seq<Event>)
    decreases |es|
  {
    es != [] ==> Enabled(s, es[0]) && IsRun(Step(s, es[0]), es[1..])
  }

  function End(s: State, es: seq<Event>): State
    requires IsRun(s, es)
    decreases |es|
  {
    if es == [] then s else End(Step(s, es[0]), es[1..])
  }

  predicate Extends(m: Users, n: Users) {
    forall k :: k in m ==> k in n && n[k] == m[k]
  }

  /** The file was absent or was read and parsed: what is on disk is what is in memory. */
  predicate CleanLoad(disk: Disk, readable: bool) {
    disk.Absent? || (disk.Content? && readable)
  }

  ghost predicate PastInv(s: State) {
    && s.users in s.past
    && (forall m :: m in s.past ==> Extends(m, s.users))
    && (forall id :: id in s.held ==> s.held[id] in s.past)
  }

  ghost predicate DiskFromPast(s: State) {
    s.disk.Content? ==> s.disk.users in s.past
  }

  /** A write that reached the file, for better or worse. */
  predicate TouchesDisk(e: Event) {
    e.Write? && !e.outcome.FailedUntouched?
  }

  predicate DiskTouched(es: seq<Event>) {
    exists i :: 0 <= i < |es| && TouchesDisk(es[i])
  }

  lemma StepKeepsPast(s: State, e: Event)
    requires PastInv(s) && Enabled(s, e)
    ensures PastInv(Step(s, e))
    ensures DiskFromPast(s) || TouchesDisk(e) ==> DiskFromPast(Step(s, e))
    ensures !TouchesDisk(e) ==> Step(s, e).disk == s.disk
  {
  }

  lemma {:induction false} RunKeepsPast(s: State, es: seq<Event>)
    requires PastInv(s) && IsRun(s, es)
    ensures PastInv(End(s, es))
    ensures DiskFromPast(s) || DiskTouched(es) ==> DiskFromPast(End(s, es))
    ensures !DiskTouched(es) ==> End(s, es).disk == s.disk
    decreases |es|
  {
    if es != [] {
      StepKeepsPast(s, es[0]);
      RunKeepsPast(Step(s, es[0]), es[1..]);
      assert DiskTouched(es) ==> TouchesDisk(es[0]) || DiskTouched(es[1..]) by {
        if i :| 0 < i < |es| && TouchesDisk(es[i]) {
          assert TouchesDisk(es[1..][i - 1]);
        }
      }
      assert DiskTouched(es[1..]) ==> DiskTouched(es) by {
        if i :| 0 <= i < |es| - 1 && TouchesDisk(es[1..][i]) {
          assert TouchesDisk(es[i + 1]);
        }
      }
    }
  }

  /**
   Whatever fails and however saves overlap, a file with accounts is a value the user map had at some point of this
   run, and no account on it is missing or different in memory. After a start that found a file and could not read it,
   this holds from the first write on that reaches the file; until then the file is what it was.
   */
  lemma DiskIsAPastSnapshot(disk: Disk, readable: bool, es: seq<Event>)
    requires IsRun(Start(disk, readable), es)
    ensures var t := End(Start(disk, readable), es);
            if (disk.Content? && !readable) && !DiskTouched(es) then t.disk == disk
            else t.disk.Content? ==> t.disk.users in t.past && Extends(t.disk.users, t.users)
  {
    RunKeepsPast(Start(disk, readable), es);
  }

  /** Every write succeeds and no snapshot is taken while another save is still to be written. */
  predicate Orderly(s: State, es: seq<Event>)
    requires IsRun(s, es)
    decreases |es|
  {
    es != [] ==>
      && (es[0].Write? ==> es[0].outcome.Written?)
      && (es[0].TakeSnapshot? ==> s.held == map[])
      && Orderly(Step(s, es[0]), es[1..])
  }

  ghost predicate SyncInv(s: State) {
    && (!s.dirty && s.held == map[] ==> UsersOnDisk(s.disk) == s.users)
    && (forall id :: id in s.held && !s.dirty ==> s.held[id] == s.users)
    && (forall id, id' :: id in s.held && id' in s.held ==> id == id')
  }

  lemma OrderlyStepStaysInSync(s: State, e: Event)
    requires SyncInv(s) && Enabled(s, e)
    requires e.Write? ==> e.outcome.Written?
    requires e.TakeSnapshot? ==> s.held == map[]
    ensures SyncInv(Step(s, e))
  {
    var s' := Step(s, e);
    if e.TakeSnapshot? {
      assert e.id in s'.held;
    } else if !e.Write? {
      assert s'.held == s.held && s'.disk == s.disk;
    }
  }

  lemma {:induction false} OrderlyRunStaysInSync(s: State, es: seq<Event>)
    requires SyncInv(s) && IsRun(s, es) && Orderly(s, es)
    ensures SyncInv(End(s, es))
    decreases |es|
  {
    if es != [] {
      OrderlyStepStaysInSync(s, es[0]);
      OrderlyRunStaysInSync(Step(s, es[0]), es[1..]);
    }
  }

  /**
   After a clean load, with successful and non-overlapping writes, a clear flag and no save under way mean that the
   disk holds exactly what memory holds.
   */
  lemma CleanMeansSaved(disk: Disk, readable: bool, es: seq<Event>)
    requires CleanLoad(disk, readable)
    requires IsRun(Start(disk, readable), es) && Orderly(Start(disk, readable), es)
    ensures var t := End(Start(disk, readable), es);
            !t.dirty && t.held == map[] ==> UsersOnDisk(t.disk) == t.users
  {
    OrderlyRunStaysInSync(Start(disk, readable), es);
  }

  function Sample(name: string): Registration {
    Registration(name, "", "secret", Some("hash"), "now")
  }

  /** One failed write: the flag is clear, nothing is under way, and the account is only in memory. */
  lemma FailedWriteLosesAccount(outcome: WriteOutcome)
    requires !outcome.Written?
    ensures var es := [Register(Sample("alice")), CallSave(0), TakeSnapshot(0), Write(0, outcome)];
            IsRun(Start(Absent, true), es) &&
            var t := End(Start(Absent, true), es);
            !t.dirty && t.held == map[] && t.requested == {} && "alice" in t.users && UsersOnDisk(t.disk) == map[]
  {
    var s0 := Start(Absent, true);
    var s1 := Step(s0, Register(Sample("alice")));
    var s2 := Step(s1, CallSave(0));
    var s3 := Step(s2, TakeSnapshot(0));
    var s4 := Step(s3, Write(0, outcome));
    RunOfFour(s0, Register(Sample("alice")), CallSave(0), TakeSnapshot(0), Write(0, outcome));
  }

  /** In the run `es` the account `name` was registered, with these contents. */
  ghost predicate RegisteredIn(es: seq<Event>, name: string, user: User) {
    exists i :: 0 <= i < |es| && Registers(es[i], name, user)
  }

  predicate Registers(e: Event, name: string, user: User) {
    e.Register? && e.r.username == name && e.r.hash.Some? && NewUser(e.r) == user
  }

  /** Every account in memory was there at the beginning or was registered in the run. */
  lemma {:induction false} AccountsAreRegistered(s: State, es: seq<Event>, name: string)
    requires IsRun(s, es) && name in End(s, es).users
    ensures (name in s.users && s.users[name] == End(s, es).users[name]) ||
            RegisteredIn(es, name, End(s, es).users[name])
    decreases |es|
  {
    if es != [] {
      var s', user := Step(s, es[0]), End(s, es).users[name];
      AccountsAreRegistered(s', es[1..], name);
      if RegisteredIn(es[1..], name, user) {
        var i :| 0 <= i < |es| - 1 && Registers(es[1..][i], name, user);
        assert Registers(es[i + 1], name, user);
      } else if name !in s.users {
        assert Registers(es[0], name, user);
      }
    }
  }

  /**
   After a start that found a users file and could not read it, once a write has reached the file every account on it
   was registered in this run: an older account is there only if it was registered again.
   */
  lemma OldAccountsAreGone(users: Users, es: seq<Event>, name: string)
    requires IsRun(Start(Content(users), false), es) && DiskTouched(es)
    requires var t := End(Start(Content(users), false), es); t.disk.Content? && name in t.disk.users
    ensures RegisteredIn(es, name, End(Start(Content(users), false), es).disk.users[name])
  {
    DiskIsAPastSnapshot(Content(users), false, es);
    AccountsAreRegistered(Start(Content(users), false), es, name);
  }

  /** After a start that could not read the file, the first successful save replaces every account in it. */
  lemma UnreadableStartLosesAccounts(users: Users)
    ensures var es := [Register(Sample("bob")), CallSave(0), TakeSnapshot(0), Write(0, Written)];
            IsRun(Start(Content(users), false), es) &&
            var t := End(Start(Content(users), false), es);
            t.disk == Content(t.users) && t.users == map["bob" := NewUser(Sample("bob"))]
  {
    var s := Start(Content(users), false);
    RunOfFour(s, Register(Sample("bob")), CallSave(0), TakeSnapshot(0), Write(0, Written));
  }

  lemma RunPrepend(s: State, e: Event, rest: seq<Event>)
    requires Enabled(s, e) && IsRun(Step(s, e), rest)
    ensures IsRun(s, [e] + rest) && End(s, [e] + rest) == End(Step(s, e), rest)
  {
    assert ([e] + rest)[1..] == rest;
  }

  lemma RunOfTwo(s: State, a: Event, b: Event)
    requires Enabled(s, a) && Enabled(Step(s, a), b)
    ensures IsRun(s, [a, b]) && End(s, [a, b]) == Step(Step(s, a), b)
  {
    var last: seq<Event> := [];
    RunPrepend(Step(s, a), b, last);
    RunPrepend(s, a, [b] + last);
    assert [a] + ([b] + last) == [a, b];
  }

  lemma RunOfFour(s: State, a: Event, b: Event, c: Event, d: Event)
    requires Enabled(s, a) && Enabled(Step(s, a), b) && Enabled(Step(Step(s, a), b), c)
    requires Enabled(Step(Step(Step(s, a), b), c), d)
    ensures IsRun(s, [a, b, c, d]) && End(s, [a, b, c, d]) == Step(Step(Step(Step(s, a), b), c), d)
  {
    RunOfTwo(s, a, b);
    RunOfTwo(Step(Step(s, a), b), c, d);
    RunsConcatenate(s, [a, b], [c, d]);
    assert [a, b] + [c, d] == [a, b, c, d];
  }

  /** Two saves that overlap, both successful: the older snapshot is written last and the newer account is lost. */
  lemma OverlappingSavesLoseAccount()
    ensures var es := [Register(Sample("alice")), CallSave(0), TakeSnapshot(0), Register(Sample("bob"))] +
                      [CallSave(1), TakeSnapshot(1), Write(1, Written), Write(0, Written)];
            IsRun(Start(Absent, true), es) &&
            var t := End(Start(Absent, true), es);
            !t.dirty && t.held == map[] && t.requested == {} && "bob" in t.users && "bob" !in UsersOnDisk(t.disk)
  {
    var s := Start(Absent, true);
    assert "bob" != "alice" by { assert |"bob"| != |"alice"|; }
    var first := [Register(Sample("alice")), CallSave(0), TakeSnapshot(0), Register(Sample("bob"))];
    var second := [CallSave(1), TakeSnapshot(1), Write(1, Written), Write(0, Written)];
    RunOfFour(s, first[0], first[1], first[2], first[3]);
    var m := End(s, first);
    RunOfFour(m, second[0], second[1], second[2], second[3]);
    RunsConcatenate(s, first, second);
  }

  lemma {:induction false} RunsConcatenate(s: State, first: seq<Event>, second: seq<Event>)
    requires IsRun(s, first) && IsRun(End(s, first), second)
    ensures IsRun(s, first + second) && End(s, first + second) == End(End(s, first), second)
    decreases |first|
  {
    if first == [] {
      assert first + second == second;
    } else {
      RunsConcatenate(Step(s, first[0]), first[1..], second);
      assert (first + second)[1..] == first[1..] + second;
    }
  }

  /** Auto-save does NOT catch it: once the flag is clear and no save is under way, no tick writes anything. */
  lemma {:induction false} TicksNeverRepair(s: State, ticks: seq<Event>)
    requires !s.dirty && s.requested == {} && s.held == map[]
    requires IsRun(s, ticks) && forall i :: 0 <= i < |ticks| ==> ticks[i].AutoTick?
    ensures End(s, ticks) == s
    decreases |ticks|
  {
    if ticks != [] {
      TicksNeverRepair(Step(s, ticks[0]), ticks[1..]);
    }
  }

  /** A store that has just started and is left alone never touches the users file, whatever it found there. */
  lemma IdleStoreWritesNothing(disk: Disk, readable: bool, ticks: seq<Event>)
    requires IsRun(Start(disk, readable), ticks) && forall i :: 0 <= i < |ticks| ==> ticks[i].AutoTick?
    ensures End(Start(disk, readable), ticks).disk == disk
    ensures End(Start(disk, readable), ticks).requested == {}
  {
    TicksNeverRepair(Start(disk, readable), ticks);
  }

  /** The schedule seen from outside: which snapshots, and is the disk's, newer than every accepted registration. */
  datatype Freshness = Freshness(disk: bool, held: set<nat>)

  function Track(f: Freshness, s: State, e: Event): Freshness {
    match e
    case Register(r) => if Rejection(s.users, r).None? then Freshness(false, {}) else f
    case TakeSnapshot(id) => f.(held := f.held + {id})
    case Write(id, outcome) =>
      Freshness(
        (match outcome
         case Written => id in f.held
         case FailedUntouched => f.disk
         case FailedCorrupting => false),
        f.held - {id})
    case _ => f
  }

  function TrackRun(f: Freshness, s: State, es: seq<Event>): Freshness
    requires IsRun(s, es)
    decreases |es|
  {
    if es == [] then f else TrackRun(Track(f, s, es[0]), Step(s, es[0]), es[1..])
  }

  predicate Agrees(disk: Disk, users: Users) {
    disk == Content(users) || (disk.Absent? && users == map[])
  }

  ghost predicate FreshnessInv(f: Freshness, s: State) {
    && (f.disk <==> Agrees(s.disk, s.users))
    && (s.disk.Content? ==> Extends(s.disk.users, s.users))
    && f.held <= s.held.Keys
    && (forall id :: id in s.held ==> Extends(s.held[id], s.users) && (id in f.held <==> s.held[id] == s.users))
  }

  lemma StepKeepsFreshness(f: Freshness, s: State, e: Event)
    requires FreshnessInv(f, s) && Enabled(s, e)
    requires e.TakeSnapshot? ==> e.id !in s.held
    ensures FreshnessInv(Track(f, s, e), Step(s, e))
  {
    if e.Register? && Rejection(s.users, e.r).None? {
      var users := Step(s, e).users;
      assert e.r.username in users && e.r.username !in s.users;
      forall id | id in s.held ensures Extends(s.held[id], users) && s.held[id] != users {
        assert e.r.username !in s.held[id];
      }
      if s.disk.Content? {
        assert e.r.username !in s.disk.users;
      }
    }
  }

  /** A save is either waiting for its snapshot or holding it. */
  lemma {:induction false} RunKeepsFreshness(f: Freshness, s: State, es: seq<Event>)
    requires FreshnessInv(f, s) && IsRun(s, es) && s.requested !! s.held.Keys
    ensures FreshnessInv(TrackRun(f, s, es), End(s, es))
    decreases |es|
  {
    if es != [] {
      StepKeepsFreshness(f, s, es[0]);
      RunKeepsFreshness(Track(f, s, es[0]), Step(s, es[0]), es[1..]);
    }
  }

  /**
   Exactly when the disk holds what memory holds, after any run that follows a clean load, whatever failed or
   overlapped: the write that last touched the file succeeded with a snapshot taken after the last accepted
   registration, or there was neither.
   */
  lemma SavedIffLastWriteWasFresh(disk: Disk, readable: bool, es: seq<Event>)
    requires CleanLoad(disk, readable) && IsRun(Start(disk, readable), es)
    ensures Agrees(End(Start(disk, readable), es).disk, End(Start(disk, readable), es).users)
       <==> TrackRun(Freshness(true, {}), Start(disk, readable), es).disk
  {
    RunKeepsFreshness(Freshness(true, {}), Start(disk, readable), es);
  }

  /** What a request must satisfy, apart from the name being free. */
  predicate Acceptable(r: Registration) {
    2 <= |r.username| && 6 <= |r.password| && r.hash.Some?
  }

  predicate Requests(e: Event, name: string) {
    e.Register? && e.r.username == name && Acceptable(e.r)
  }

  /** `p` is the first acceptable request for the name. */
  ghost predicate FirstRequest(es: seq<Event>, name: string, p: nat) {
    p < |es| && Requests(es[p], name) && forall k :: 0 <= k < p ==> !Requests(es[k], name)
  }

  /** The account a request asks for: bcrypt's hash instead of the password, the user name where no other is given. */
  function Requested(r: Registration): User
    requires r.hash.Some?
  {
    User(r.username, if |r.displayName| == 0 then r.username else r.displayName, r.hash.value, r.createdAt)
  }

  /** The accounts after a run: those from before, unchanged, and for every other name its first acceptable request. */
  lemma {:induction false} AccountsAreFirstRequests(s: State, es: seq<Event>, name: string)
    requires IsRun(s, es)
    ensures var users := End(s, es).users;
            && (name in s.users ==> name in users && users[name] == s.users[name])
            && (name !in s.users ==>
                  && (name in users <==> exists p: nat :: FirstRequest(es, name, p))
                  && forall p: nat :: FirstRequest(es, name, p) ==> name in users && users[name] == Requested(es[p].r))
    decreases |es|
  {
    if es != [] {
      AccountsAreFirstRequests(Step(s, es[0]), es[1..], name);
      if name !in s.users {
        if Requests(es[0], name) {
          assert FirstRequest(es, name, 0);
        } else {
          LaterRequests(es, name);
        }
      }
    }
  }

  lemma LaterRequests(es: seq<Event>, name: string)
    requires es != [] && !Requests(es[0], name)
    ensures forall p: nat :: FirstRequest(es, name, p) <==> p > 0 && FirstRequest(es[1..], name, p - 1)
    ensures forall p: nat :: FirstRequest(es[1..], name, p) ==> FirstRequest(es, name, p + 1)
  {
    forall p: nat ensures FirstRequest(es, name, p) <==> p > 0 && FirstRequest(es[1..], name, p - 1) {
      if p > 0 && FirstRequest(es[1..], name, p - 1) {
        forall k | 0 <= k < p ensures !Requests(es[k], name) {
          assert k > 0 ==> es[k] == es[1..][k - 1];
        }
      }
      if p > 0 && FirstRequest(es, name, p) {
        assert es[1..][p - 1] == es[p];
      }
    }
  }

  /** Which error a refused request gets: the first condition it violates, in this order. */
  lemma RefusalsInOrder(users: Users, r: Registration)
    ensures var short, weak, taken := |r.username| < 2, |r.password| < 6, r.username in users;
            && (Rejection(users, r) == Some(UsernameTooShort) <==> short)
            && (Rejection(users, r) == Some(PasswordTooShort) <==> !short && weak)
            && (Rejection(users, r) == Some(UsernameTaken) <==> !short && !weak && taken)
            && (Rejection(users, r) == Some(HashingFailed) <==> !short && !weak && !taken && r.hash.None?)
            && (Rejection(users, r).None? <==> Acceptable(r) && !taken)
  {
  }

  /** One tick of the auto-save loop when nothing comes between its steps. */
  function TickSteps(s: State, id: nat, outcome: WriteOutcome): seq<Event> {
    [AutoTick(id)] + if s.dirty then [TakeSnapshot(id)] + ([Write(id, outcome)] + []) else []
  }

  lemma SnapshotAndWrite(s: State, id: nat, outcome: WriteOutcome)
    requires id in s.requested && id !in s.held
    ensures var es := [TakeSnapshot(id)] + ([Write(id, outcome)] + []);
            && IsRun(s, es)
            && var t := End(s, es);
               && t.users == s.users && !t.dirty && t.requested == s.requested - {id} && t.held == s.held
               && (outcome.Written? ==> t.disk == Content(s.users))
               && (outcome.FailedUntouched? ==> t.disk == s.disk)
               && (outcome.FailedCorrupting? ==> t.disk == Corrupt)
  {
    var s1 := Step(s, TakeSnapshot(id));
    RunPrepend(s1, Write(id, outcome), []);
    RunPrepend(s, TakeSnapshot(id), [Write(id, outcome)] + []);
    assert s1.held - {id} == s.held;
  }

  /** Undisturbed, the steps of a tick have the contract of `Store.AutoSave`: a set flag leads to a write. */
  lemma UndisturbedTick(s: State, id: nat, outcome: WriteOutcome)
    requires id !in s.requested && id !in s.held
    ensures var es := TickSteps(s, id, outcome);
            && IsRun(s, es)
            && var t := End(s, es);
               && t.users == s.users && !t.dirty && t.requested == s.requested && t.held == s.held
               && (!s.dirty ==> t.disk == s.disk)
               && (s.dirty && outcome.Written? ==> t.disk == Content(s.users))
               && (s.dirty && outcome.FailedUntouched? ==> t.disk == s.disk)
               && (s.dirty && outcome.FailedCorrupting? ==> t.disk == Corrupt)
  {
    var s1 := Step(s, AutoTick(id));
    if s.dirty {
      SnapshotAndWrite(s1, id, outcome);
      RunPrepend(s, AutoTick(id), [TakeSnapshot(id)] + ([Write(id, outcome)] + []));
      assert s1.requested - {id} == s.requested;
    } else {
      RunPrepend(s, AutoTick(id), []);
    }
  }

  /** Undisturbed, the steps of a call to save have the contract of `Store.SaveToFile`, whatever the flag. */
  lemma UndisturbedSave(s: State, id: nat, outcome: WriteOutcome)
    requires id !in s.requested && id !in s.held
    ensures var es := [CallSave(id)] + ([TakeSnapshot(id)] + ([Write(id, outcome)] + []));
            && IsRun(s, es)
            && var t := End(s, es);
               && t.users == s.users && !t.dirty && t.requested == s.requested && t.held == s.held
               && (outcome.Written? ==> t.disk == Content(s.users))
               && (outcome.FailedUntouched? ==> t.disk == s.disk)
               && (outcome.FailedCorrupting? ==> t.disk == Corrupt)
  {
    var s1 := Step(s, CallSave(id));
    SnapshotAndWrite(s1, id, outcome);
    RunPrepend(s, CallSave(id), [TakeSnapshot(id)] + ([Write(id, outcome)] + []));
    assert s1.requested - {id} == s.requested;
  }
}
