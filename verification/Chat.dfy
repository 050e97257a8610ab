/** Chat turns as a protocol of atomic steps: bind, admit, resolve the history, run, put or delete, release.
Any number of turns, account changes and other admitted work interleave. */
module Chatting {
  import opened Options
  import opened Decimals
  import opened Transcripts
  import opened Sanitizing
  import opened Trimming
  import opened Storing
  import opened Admitting

  /** `Running` remembers the conversation id and the store entry the turn resumed, if it resumed one. */
  datatype Phase = Bound | InChat | Running(convId: string, read: Option<Conversation>) | Answered | Closed

  /** `resolved` is the provider account that the turn was begun with. */
  datatype Turn = Turn(user: int, resolved: Resolved, binding: Binding, permit: Option<nat>, phase: Phase)

  /** `owners` records for whom each conversation id was minted. */
  datatype World = World(store: StoreState, admission: AdmissionState, turns: seq<Turn>, owners: map<string, int>)

  const START := World(EMPTY_STORE, NO_CHATS, [], map[])

  datatype ChatStep =
    | Begin(user: int, resolved: Resolved)
    | Admit(turn: nat)
    /** `minted` is the id to mint if the requested conversation cannot be resumed. */
    | Resolve(turn: nat, requested: string, text: string, minted: string, now: int)
    /** `kept` is what eviction at time `now` leaves, in whatever order it visits the map; `stamp` is when the new
    entry is made. */
    | Succeed(turn: nat, final: Transcript, now: int, stamp: int, kept: Conversations)
    | Fail(turn: nat)
    | Abandon(turn: nat)
    | ReleaseTurn(turn: nat)
    | ForgetUser(user: int)
    | ForgetAll
    | OtherAcquire(key: string, source: string)
    | OtherRelease(permit: nat)

  function FormatInt(n: int): string {
    if n < 0 then "-" + Digits(-n) else Digits(n)
  }

  function UserKey(user: int): string {
    "user:" + FormatInt(user)
  }

  predicate HasPhase(w: World, t: nat, phase: Phase) {
    t < |w.turns| && w.turns[t].phase == phase
  }

  predicate IsRunning(w: World, t: nat) {
    t < |w.turns| && w.turns[t].phase.Running?
  }

  function Resumed(w: World, step: ChatStep): Option<Transcript>
    requires step.Resolve? && step.turn < |w.turns|
  {
    if step.requested == "" || step.text == "" then None
    else Lookup(w.store, step.requested, w.turns[step.turn].user, w.turns[step.turn].binding, step.now)
  }

  /** When a step can happen.  Minted ids are fresh and not empty; a release closure is only called by its own turn
  and waits for tokens to receive. */
  ghost predicate Enabled(w: World, step: ChatStep) {
    match step
    case Begin(_, _) => true
    case Admit(t) => HasPhase(w, t, Bound)
    case Resolve(t, _, _, minted, _) => HasPhase(w, t, InChat) && minted !in w.owners && minted != ""
    case Succeed(t, _, now, _, kept) => IsRunning(w, t) && Evicted(w.store.conversations, kept, now)
    case Fail(t) => IsRunning(w, t)
    case Abandon(t) => t < |w.turns|
    case ReleaseTurn(t) =>
      t < |w.turns| && w.turns[t].permit.Some? && TokensAvailable(w.admission, w.turns[t].permit.value)
    case ForgetUser(_) => true
    case ForgetAll => true
    case OtherAcquire(_, _) => true
    case OtherRelease(p) =>
      TokensAvailable(w.admission, p) && forall t :: 0 <= t < |w.turns| ==> w.turns[t].permit != Some(p)
  }

  function WithPhase(w: World, t: nat, phase: Phase): World
    requires t < |w.turns|
  {
    w.(turns := w.turns[t := w.turns[t].(phase := phase)])
  }

  function AfterResolve(w: World, step: ChatStep): World
    requires step.Resolve? && step.turn < |w.turns|
  {
    if Resumed(w, step).Some? then
      WithPhase(w, step.turn, Running(step.requested, Some(w.store.conversations[step.requested])))
    else
      WithPhase(w, step.turn, Running(step.minted, None)).(owners := w.owners[step.minted := w.turns[step.turn].user])
  }

  /** The entry a successful turn writes: Chat sanitises the final history, Put does so again. */
  function NewEntry(json: JsonCheck, w: World, t: nat, final: Transcript, stamp: int): Conversation
    requires t < |w.turns|
  {
    Conversation(w.turns[t].user, w.turns[t].binding, StoredForm(json, Sanitize(json, final)), stamp)
  }

  function AfterSucceed(json: JsonCheck, w: World, t: nat, final: Transcript, stamp: int, kept: Conversations): World
    requires IsRunning(w, t)
  {
    var w' := WithPhase(w, t, Answered);
    if Current(w.store, w.turns[t].user, w.turns[t].binding) then
      w'.(store := AfterPut(w.store, kept, w.turns[t].phase.convId, NewEntry(json, w, t, final, stamp)))
    else w'
  }

  function AfterAdmit(w: World, t: nat): World
    requires t < |w.turns|
  {
    var turn := w.turns[t];
    var key := UserKey(turn.user);
    match Decision(w.admission, key, turn.resolved.source)
    case Admitted(p) =>
      w.(admission := Acquired(w.admission, key, turn.resolved.source),
         turns := w.turns[t := turn.(phase := InChat, permit := Some(p))])
    case _ => WithPhase(w, t, Closed)
  }

  ghost function Next(json: JsonCheck, w: World, step: ChatStep): World
  {
    if !Enabled(w, step) then w
    else
      match step
      case Begin(user, resolved) =>
        w.(turns := w.turns + [Turn(user, resolved, BindingFor(w.store, user, resolved), None, Bound)])
      case Admit(t) => AfterAdmit(w, t)
      case Resolve(t, _, _, _, _) => AfterResolve(w, step)
      case Succeed(t, final, _, stamp, kept) => AfterSucceed(json, w, t, final, stamp, kept)
      case Fail(t) => WithPhase(w, t, Answered).(store := AfterDelete(w.store, w.turns[t].phase.convId))
      case Abandon(t) =>
        WithPhase(w, t, if w.turns[t].phase.Bound? || w.turns[t].phase.Closed? then Closed else Answered)
      case ReleaseTurn(t) => WithPhase(w, t, Closed).(admission := Released(w.admission, w.turns[t].permit.value))
      case ForgetUser(user) => w.(store := AfterDeleteForUser(w.store, user))
      case ForgetAll => w.(store := AfterDeleteAll(w.store))
      case OtherAcquire(key, source) => w.(admission := Acquired(w.admission, key, source))
      case OtherRelease(p) => w.(admission := Released(w.admission, p))
  }

  // ----- The invariant -----

  predicate Active(turn: Turn) {
    turn.phase.InChat? || turn.phase.Running? || turn.phase.Answered?
  }

  /** An admitted turn holds the lock of its user. */
  predicate LockHeld(w: World, t: nat)
    requires t < |w.turns|
  {
    var turn := w.turns[t];
    && turn.binding.owner == turn.user
    && (turn.permit.Some? ==> turn.permit.value < |w.admission.permits|)
    && (turn.phase.Bound? ==> turn.permit.None?)
    && (Active(turn) ==> turn.permit.Some? && Holds(w.admission, turn.permit.value, UserKey(turn.user)))
  }

  /** A running turn owns its conversation id, and the entry under it is gone or still what the turn read. */
  predicate ReadStillCurrent(w: World, t: nat)
    requires t < |w.turns|
  {
    var turn := w.turns[t];
    turn.phase.Running? ==>
      && turn.phase.convId in w.owners && w.owners[turn.phase.convId] == turn.user
      && (turn.phase.convId in w.store.conversations ==>
            turn.phase.read == Some(w.store.conversations[turn.phase.convId]))
  }

  predicate EntriesOwned(s: StoreState, owners: map<string, int>) {
    forall id :: id in s.conversations ==> id in owners && owners[id] == s.conversations[id].userId
  }

  predicate PermitsDistinct(w: World) {
    forall t, u :: 0 <= t < u < |w.turns| && w.turns[t].permit.Some? ==> w.turns[t].permit != w.turns[u].permit
  }

  ghost predicate WorldInv(json: JsonCheck, w: World) {
    && StoreInv(json, w.store)
    && AdmissionInv(w.admission)
    && EntriesOwned(w.store, w.owners)
    && "" !in w.owners
    && PermitsDistinct(w)
    && (forall t :: 0 <= t < |w.turns| ==> LockHeld(w, t) && ReadStillCurrent(w, t))
  }

  /** Two active turns of one user are the same turn. */
  lemma OneTurnPerUser(w: World, t: nat, u: nat)
    requires AdmissionInv(w.admission) && PermitsDistinct(w) && t < |w.turns| && u < |w.turns|
    requires LockHeld(w, t) && LockHeld(w, u) && Active(w.turns[t]) && Active(w.turns[u])
    requires w.turns[t].user == w.turns[u].user
    ensures t == u
  {
    assert Holds(w.admission, w.turns[t].permit.value, UserKey(w.turns[t].user));
    assert Holds(w.admission, w.turns[u].permit.value, UserKey(w.turns[u].user));
  }

  /** Only the turn that holds its user's lock writes or deletes a conversation of that user. */
  lemma OthersKeepReads(json: JsonCheck, w: World, t: nat, u: nat, w': World)
    requires WorldInv(json, w) && IsRunning(w, t) && u < |w.turns| && u != t
    requires w' == WithPhase(w, t, Answered).(store := w'.store)
    requires forall id :: id in w'.store.conversations && id != w.turns[t].phase.convId ==>
               id in w.store.conversations && w'.store.conversations[id] == w.store.conversations[id]
    ensures ReadStillCurrent(w', u) && LockHeld(w', u)
  {
    hide StoreInv;
    assert LockHeld(w, t) && LockHeld(w, u) && ReadStillCurrent(w, t) && ReadStillCurrent(w, u);
    if w.turns[u].phase.Running? && w.turns[u].phase.convId == w.turns[t].phase.convId {
      OneTurnPerUser(w, t, u);
    }
  }

  /** A turn that finishes may replace or drop the entry under its own id, and nothing else but what was evicted. */
  lemma WriteKeepsInv(json: JsonCheck, w: World, t: nat, s: StoreState)
    requires WorldInv(json, w) && IsRunning(w, t) && StoreInv(json, s)
    requires forall id :: id in s.conversations && id != w.turns[t].phase.convId ==>
               id in w.store.conversations && s.conversations[id] == w.store.conversations[id]
    requires w.turns[t].phase.convId in s.conversations ==>
               s.conversations[w.turns[t].phase.convId].userId == w.turns[t].user
    ensures WorldInv(json, WithPhase(w, t, Answered).(store := s))
  {
    hide StoreInv, AdmissionInv;
    var w' := WithPhase(w, t, Answered).(store := s);
    assert EntriesOwned(s, w.owners) by {
      assert ReadStillCurrent(w, t);
    }
    assert PermitsDistinct(w');
    hide EntriesOwned, PermitsDistinct;
    forall u | 0 <= u < |w.turns| ensures LockHeld(w', u) && ReadStillCurrent(w', u) {
      if u == t {
        assert LockHeld(w, t);
      } else {
        OthersKeepReads(json, w, t, u, w');
      }
    }
  }

  lemma SucceedKeepsInv(json: JsonCheck, w: World, t: nat, final: Transcript, now: int, stamp: int, kept: Conversations)
    requires WorldInv(json, w) && IsRunning(w, t) && Evicted(w.store.conversations, kept, now)
    ensures WorldInv(json, AfterSucceed(json, w, t, final, stamp, kept))
  {
    var turn := w.turns[t];
    assert ReadStillCurrent(w, t);
    if Current(w.store, turn.user, turn.binding) {
      PutKeepsInv(json, w.store, kept, turn.phase.convId, turn.user, turn.binding, Sanitize(json, final), now, stamp);
      EvictedIsSubmap(w.store.conversations, kept, now);
      hide StoreInv, Evicted, Sanitize, StoredForm, Current, WorldInv;
      WriteKeepsInv(json, w, t, AfterPut(w.store, kept, turn.phase.convId, NewEntry(json, w, t, final, stamp)));
    } else {
      PhaseKeepsInv(json, w, t, Answered);
    }
  }

  lemma FailKeepsInv(json: JsonCheck, w: World, t: nat)
    requires WorldInv(json, w) && IsRunning(w, t)
    ensures WorldInv(json, WithPhase(w, t, Answered).(store := AfterDelete(w.store, w.turns[t].phase.convId)))
  {
    DeleteKeepsInv(json, w.store, w.turns[t].phase.convId);
    hide StoreInv, AdmissionInv, ReadStillCurrent, LockHeld;
    WriteKeepsInv(json, w, t, AfterDelete(w.store, w.turns[t].phase.convId));
  }

  lemma ResolveKeepsInv(json: JsonCheck, w: World, step: ChatStep)
    requires WorldInv(json, w) && step.Resolve? && Enabled(w, step)
    ensures WorldInv(json, AfterResolve(w, step))
  {
    hide StoreInv, AdmissionInv, Current;
    var w', t := AfterResolve(w, step), step.turn;
    forall u | 0 <= u < |w.turns| ensures LockHeld(w', u) && ReadStillCurrent(w', u) {
      assert LockHeld(w, u) && ReadStillCurrent(w, u);
    }
  }

  lemma AdmitKeepsInv(json: JsonCheck, w: World, t: nat)
    requires WorldInv(json, w) && HasPhase(w, t, Bound)
    ensures WorldInv(json, AfterAdmit(w, t))
  {
    var turn, n := w.turns[t], |w.admission.permits|;
    AcquireKeepsInv(w.admission, UserKey(turn.user), turn.resolved.source);
    if Decision(w.admission, UserKey(turn.user), turn.resolved.source).Admitted? {
      var a := Acquired(w.admission, UserKey(turn.user), turn.resolved.source);
      assert Holds(a, n, UserKey(turn.user));
      OtherAdmissionKeepsInv(json, w, a);
      hide StoreInv, AdmissionInv, UserKey;
      var w' := AfterAdmit(w, t);
      forall u | 0 <= u < |w.turns|
        ensures LockHeld(w', u) && ReadStillCurrent(w', u) && (u != t ==> w'.turns[u].permit != Some(n))
      {
        assert LockHeld(w, u) && LockHeld(w.(admission := a), u) && ReadStillCurrent(w, u);
      }
    } else {
      PhaseKeepsInv(json, w, t, Closed);
    }
  }

  lemma ReleaseTurnKeepsInv(json: JsonCheck, w: World, t: nat)
    requires WorldInv(json, w) && t < |w.turns| && w.turns[t].permit.Some?
    requires TokensAvailable(w.admission, w.turns[t].permit.value)
    ensures WorldInv(json, WithPhase(w, t, Closed).(admission := Released(w.admission, w.turns[t].permit.value)))
  {
    var p := w.turns[t].permit.value;
    var w' := WithPhase(w, t, Closed).(admission := Released(w.admission, p));
    ReleaseKeepsInv(w.admission, p);
    hide StoreInv, AdmissionInv, Released;
    forall u | 0 <= u < |w.turns| ensures LockHeld(w', u) && ReadStillCurrent(w', u) {
      assert LockHeld(w, u) && ReadStillCurrent(w, u);
      if w.turns[u].permit.Some? {
        assert u != t ==> w.turns[u].permit != Some(p);
        ReleaseKeepsOthers(w.admission, p, w.turns[u].permit.value, UserKey(w.turns[u].user));
      }
    }
  }

  lemma ReleaseKeepsOthers(s: AdmissionState, p: nat, q: nat, key: string)
    requires TokensAvailable(s, p)
    ensures p != q ==> (Holds(Released(s, p), q, key) <==> Holds(s, q, key))
    ensures |Released(s, p).permits| == |s.permits|
  {
  }

  lemma OtherAdmissionKeepsInv(json: JsonCheck, w: World, a: AdmissionState)
    requires WorldInv(json, w) && AdmissionInv(a) && |a.permits| >= |w.admission.permits|
    requires forall t, key ::
               0 <= t < |w.turns| && w.turns[t].permit.Some? && Holds(w.admission, w.turns[t].permit.value, key) ==>
                 Holds(a, w.turns[t].permit.value, key)
    ensures WorldInv(json, w.(admission := a))
  {
    hide StoreInv, AdmissionInv;
    var w' := w.(admission := a);
    forall u | 0 <= u < |w.turns| ensures LockHeld(w', u) && ReadStillCurrent(w', u) {
      assert LockHeld(w, u) && ReadStillCurrent(w, u);
    }
  }

  lemma ForgetKeepsInv(json: JsonCheck, w: World, s: StoreState)
    requires WorldInv(json, w) && StoreInv(json, s)
    requires forall id :: id in s.conversations ==>
               id in w.store.conversations && s.conversations[id] == w.store.conversations[id]
    ensures WorldInv(json, w.(store := s))
  {
    hide StoreInv, AdmissionInv;
    forall t | 0 <= t < |w.turns| ensures LockHeld(w.(store := s), t) && ReadStillCurrent(w.(store := s), t) {
      assert LockHeld(w, t) && ReadStillCurrent(w, t);
    }
  }

  lemma PhaseKeepsInv(json: JsonCheck, w: World, t: nat, phase: Phase)
    requires WorldInv(json, w) && t < |w.turns| && !phase.Running? && !phase.Bound?
    requires phase.Closed? || Active(w.turns[t])
    ensures WorldInv(json, WithPhase(w, t, phase))
  {
    hide StoreInv, AdmissionInv;
    var w' := WithPhase(w, t, phase);
    forall u | 0 <= u < |w.turns| ensures LockHeld(w', u) && ReadStillCurrent(w', u) {
      assert LockHeld(w, u) && ReadStillCurrent(w, u);
    }
  }

  lemma BeginKeepsInv(json: JsonCheck, w: World, turn: Turn)
    requires WorldInv(json, w) && turn.binding.owner == turn.user && turn.permit.None? && turn.phase.Bound?
    ensures WorldInv(json, w.(turns := w.turns + [turn]))
  {
    hide StoreInv, AdmissionInv;
    var w' := w.(turns := w.turns + [turn]);
    forall u | 0 <= u < |w'.turns| ensures LockHeld(w', u) && ReadStillCurrent(w', u) {
      if u < |w.turns| {
        assert LockHeld(w, u) && ReadStillCurrent(w, u);
      }
    }
  }

  /** Every step keeps the invariant. */
  lemma NextKeepsInv(json: JsonCheck, w: World, step: ChatStep)
    requires WorldInv(json, w)
    ensures WorldInv(json, Next(json, w, step))
  {
    hide StoreInv, AdmissionInv, EntriesOwned, PermitsDistinct, LockHeld, ReadStillCurrent, Evicted, StoredForm;
    if Enabled(w, step) {
      match step {
        case Begin(user, resolved) =>
          BeginKeepsInv(json, w, Turn(user, resolved, BindingFor(w.store, user, resolved), None, Bound));
        case Admit(t) => AdmitKeepsInv(json, w, t);
        case Resolve(t, _, _, _, _) => ResolveKeepsInv(json, w, step);
        case Succeed(t, final, now, stamp, kept) => SucceedKeepsInv(json, w, t, final, now, stamp, kept);
        case Fail(t) => FailKeepsInv(json, w, t);
        case Abandon(t) =>
          PhaseKeepsInv(json, w, t, if w.turns[t].phase.Bound? || w.turns[t].phase.Closed? then Closed else Answered);
        case ReleaseTurn(t) => ReleaseTurnKeepsInv(json, w, t);
        case ForgetUser(user) =>
          DeleteForUserKeepsInv(json, w.store, user);
          ForgetKeepsInv(json, w, AfterDeleteForUser(w.store, user));
        case ForgetAll =>
          DeleteAllKeepsInv(json, w.store);
          ForgetKeepsInv(json, w, AfterDeleteAll(w.store));
        case OtherAcquire(key, source) =>
          AcquireKeepsInv(w.admission, key, source);
          OtherAdmissionKeepsInv(json, w, Acquired(w.admission, key, source));
        case OtherRelease(p) =>
          ReleaseKeepsInv(w.admission, p);
          OtherAdmissionKeepsInv(json, w, Released(w.admission, p));
      }
    }
  }

  // ----- Whole runs -----

  /** The world after any sequence of steps; a step that is not enabled does nothing. */
  ghost function Run(json: JsonCheck, steps: seq<ChatStep>): World {
    if steps == [] then START else Next(json, Run(json, steps[..|steps| - 1]), steps[|steps| - 1])
  }

  /** Every reachable world satisfies the invariant. */
  lemma {:induction false} RunKeepsInv(json: JsonCheck, steps: seq<ChatStep>)
    ensures WorldInv(json, Run(json, steps))
  {
    hide Next;
    if steps == [] {
      NothingLive(NO_CHATS);
    } else {
      hide WorldInv;
      RunKeepsInv(json, steps[..|steps| - 1]);
      NextKeepsInv(json, Run(json, steps[..|steps| - 1]), steps[|steps| - 1]);
    }
  }

  /** A turn that holds a permit can always release it: no release closure ever blocks while it holds the mutex. */
  lemma ReleaseNeverBlocks(json: JsonCheck, steps: seq<ChatStep>, t: nat)
    requires t < |Run(json, steps).turns| && Run(json, steps).turns[t].permit.Some?
    ensures Enabled(Run(json, steps), ReleaseTurn(t))
  {
    RunKeepsInv(json, steps);
    hide Run;
    TokensLeft(Run(json, steps).admission, Run(json, steps).turns[t].permit.value);
  }

  datatype Access = Access(id: string, user: int)

  /** The conversation that a step writes or deletes, and the user it acts for. */
  ghost function Written(w: World, step: ChatStep): Option<Access> {
    if (step.Succeed? || step.Fail?) && Enabled(w, step) then
      Some(Access(w.turns[step.turn].phase.convId, w.turns[step.turn].user))
    else None
  }

  /** No lost update: while a turn runs, no other turn can write or delete its conversation, and the entry that it
  replaces in the end, if any, is exactly the one it resumed. */
  lemma NoLostUpdate(json: JsonCheck, steps: seq<ChatStep>, t: nat, step: ChatStep)
    requires IsRunning(Run(json, steps), t)
    ensures var w := Run(json, steps);
            var turn := w.turns[t];
            && (turn.phase.convId in w.store.conversations ==>
                  turn.phase.read == Some(w.store.conversations[turn.phase.convId]))
            && (Written(w, step).Some? && Written(w, step).value.id == turn.phase.convId ==> step.turn == t)
  {
    hide Run, StoreInv;
    RunKeepsInv(json, steps);
    var w := Run(json, steps);
    assert LockHeld(w, t) && ReadStillCurrent(w, t);
    if Written(w, step).Some? && Written(w, step).value.id == w.turns[t].phase.convId {
      assert LockHeld(w, step.turn) && ReadStillCurrent(w, step.turn);
      OneTurnPerUser(w, t, step.turn);
    }
  }

  lemma OwnersKept(json: JsonCheck, w: World, step: ChatStep)
    ensures forall id :: id in w.owners ==>
              id in Next(json, w, step).owners && Next(json, w, step).owners[id] == w.owners[id]
  {
    hide StoreInv, AdmissionInv, Evicted, Lookup, Decision;
  }

  /** All writes and deletes of a run. */
  ghost function Accesses(json: JsonCheck, steps: seq<ChatStep>): seq<Access> {
    if steps == [] then []
    else
      var init := steps[..|steps| - 1];
      Accesses(json, init)
      + match Written(Run(json, init), steps[|steps| - 1]) { case None => [] case Some(a) => [a] }
  }

  lemma {:induction false} AccessesOwned(json: JsonCheck, steps: seq<ChatStep>)
    ensures forall a :: a in Accesses(json, steps) ==>
              a.id in Run(json, steps).owners && Run(json, steps).owners[a.id] == a.user
  {
    hide Next, StoreInv, AdmissionInv;
    if steps != [] {
      var init, step := steps[..|steps| - 1], steps[|steps| - 1];
      var w := Run(json, init);
      AccessesOwned(json, init);
      OwnersKept(json, w, step);
      RunKeepsInv(json, init);
      if Written(w, step).Some? {
        assert ReadStillCurrent(w, step.turn);
      }
    }
  }

  /** Over a whole run, a conversation id is only ever written or deleted for one user. */
  lemma OneOwner(json: JsonCheck, steps: seq<ChatStep>)
    ensures forall a, b :: a in Accesses(json, steps) && b in Accesses(json, steps) && a.id == b.id ==> a.user == b.user
  {
    hide Accesses, Run;
    AccessesOwned(json, steps);
  }

  /** Minted ids are never empty, so in every run eviction drops the oldest entries first. */
  lemma EvictionDropsOldest(json: JsonCheck, steps: seq<ChatStep>)
    ensures var cs := Run(json, steps).store.conversations;
            forall kept, now, dropped, survivor ::
              Evicted(cs, kept, now) && dropped in Live(cs, now) && dropped !in kept && survivor in kept ==>
                survivor in cs && OlderFirst(cs, dropped, survivor)
  {
    hide Run, StoreInv, AdmissionInv;
    RunKeepsInv(json, steps);
    var cs := Run(json, steps).store.conversations;
    forall kept, now, dropped, survivor
      | Evicted(cs, kept, now) && dropped in Live(cs, now) && dropped !in kept && survivor in kept
      ensures survivor in cs && OlderFirst(cs, dropped, survivor)
    {
      EvictedIsSubmap(cs, kept, now);
    }
  }

  /** In every run, whatever a Get returns goes to the user for whom the id was minted, has not expired, and is a
  paired, bounded transcript of at most 60 messages. */
  lemma EveryGetIsOwnAndClean(json: JsonCheck, steps: seq<ChatStep>, w: World, id: string, reader: int, b: Binding,
                              now: int)
    requires w == Run(json, steps) && Lookup(w.store, id, reader, b, now).Some?
    ensures var got := Lookup(w.store, id, reader, b, now).value;
            && id in w.owners && w.owners[id] == reader
            && now - w.store.conversations[id].updatedAt <= TTL
            && Normal(json, got) && |got| <= MAX_STORED_MESSAGES
  {
    hide Run, AdmissionInv;
    RunKeepsInv(json, steps);
    var got := Lookup(w.store, id, reader, b, now).value;
    assert EntryInv(json, w.store, id);
    StoredEntry(json, got);
    hide Normal, StoreInv;
    assert got == Trim(Sanitize(json, got), MAX_STORED_MESSAGES);
    TrimKeepsMessageLimit(Sanitize(json, got), MAX_STORED_MESSAGES);
  }

  // ----- Locks -----

  /** Different users have different locks. */
  lemma UserKeyInjective(user: int, user': int)
    requires UserKey(user) == UserKey(user')
    ensures user == user'
  {
    var s, s' := FormatInt(user), FormatInt(user');
    assert s == UserKey(user)[5..] && s' == UserKey(user')[5..];
    DigitsAreNumeric(if user < 0 then -user else user);
    DigitsAreNumeric(if user' < 0 then -user' else user');
    if user < 0 {
      assert s[0] == '-' && s[1..] == Digits(-user);
    }
    if user' < 0 {
      assert s'[0] == '-' && s'[1..] == Digits(-user');
    }
  }

  /** A turn begins bound to its account as it is at that moment. */
  lemma BeginBinds(json: JsonCheck, w: World, user: int, r: Resolved)
    ensures var turns := Next(json, w, Begin(user, r)).turns;
            && |turns| == |w.turns| + 1
            && turns[|w.turns|].user == user && turns[|w.turns|].resolved == r && turns[|w.turns|].phase.Bound?
            && turns[|w.turns|].permit.None? && Current(w.store, user, turns[|w.turns|].binding)
            && turns[|w.turns|].binding == BindingFor(w.store, user, r)
  {
  }

  /** A bound turn is let in exactly if nothing holds the lock of its user and the permits that are out leave room. */
  lemma AdmittedIff(json: JsonCheck, steps: seq<ChatStep>, t: nat)
    requires HasPhase(Run(json, steps), t, Bound)
    ensures var w := Run(json, steps);
            HasPhase(Next(json, w, Admit(t)), t, InChat) <==>
              && (forall p :: !Holds(w.admission, p, UserKey(w.turns[t].user)))
              && |LivePermits(w.admission)| < 16
              && (w.turns[t].resolved.source == "shared" ==> |LiveSharedPermits(w.admission)| < 4)
  {
    RunKeepsInv(json, steps);
    hide Run, StoreInv;
    var w := Run(json, steps);
    AdmissionIff(w.admission, UserKey(w.turns[t].user), w.turns[t].resolved.source);
  }

  /** A failed turn leaves nothing under its id. */
  lemma FailDrops(json: JsonCheck, w: World, t: nat)
    requires IsRunning(w, t)
    ensures w.turns[t].phase.convId !in Next(json, w, Fail(t)).store.conversations
  {
  }

  // ----- Bindings stand for accounts -----

  /** The binding of a turn is that of its account at some generations. */
  predicate BoundTo(turn: Turn) {
    var b := turn.binding;
    b == BindingFor(StoreState(map[], b.globalGeneration, map[turn.user := b.userGeneration]), turn.user, turn.resolved)
  }

  lemma NextKeepsBound(json: JsonCheck, w: World, step: ChatStep)
    requires forall t :: 0 <= t < |w.turns| ==> BoundTo(w.turns[t])
    ensures forall t :: 0 <= t < |Next(json, w, step).turns| ==> BoundTo(Next(json, w, step).turns[t])
  {
    hide StoreInv, AdmissionInv, Evicted, Lookup, Decision, StoredForm, Sanitize, Current;
  }

  lemma {:induction false} RunKeepsBound(json: JsonCheck, steps: seq<ChatStep>)
    ensures forall t :: 0 <= t < |Run(json, steps).turns| ==> BoundTo(Run(json, steps).turns[t])
  {
    hide Next, BoundTo;
    if steps != [] {
      RunKeepsBound(json, steps[..|steps| - 1]);
      NextKeepsBound(json, Run(json, steps[..|steps| - 1]), steps[|steps| - 1]);
    }
  }

  // ----- Conversations are resumed -----

  /** The step neither writes, deletes nor evicts conversation `id`, nor purges its user. */
  ghost predicate LeavesAlone(w: World, step: ChatStep, id: string, user: int) {
    Enabled(w, step) ==>
      match step
      case Succeed(t, _, _, _, kept) =>
        && w.turns[t].phase.convId != id
        && (Current(w.store, w.turns[t].user, w.turns[t].binding) ==> id in kept)
      case Fail(t) => w.turns[t].phase.convId != id
      case ForgetUser(u) => u != user
      case ForgetAll => false
      case _ => true
  }

  lemma StepLeaves(json: JsonCheck, w: World, step: ChatStep, id: string, user: int)
    requires LeavesAlone(w, step, id, user) && id in w.store.conversations && w.store.conversations[id].userId == user
    ensures var s := Next(json, w, step).store;
            && id in s.conversations && s.conversations[id] == w.store.conversations[id]
            && s.globalGeneration == w.store.globalGeneration
            && UserGeneration(s, user) == UserGeneration(w.store, user)
  {
    hide StoreInv, AdmissionInv, Lookup, Decision, StoredForm, Sanitize, Current, Acquired, Released, Evicted;
    if step.Succeed? && Enabled(w, step) {
      EvictedIsSubmap(w.store.conversations, step.kept, step.now);
    }
  }

  ghost predicate LeftAlone(json: JsonCheck, steps: seq<ChatStep>, i: nat, id: string, user: int) {
    forall k :: i <= k < |steps| ==> LeavesAlone(Run(json, steps[..k]), steps[k], id, user)
  }

  lemma {:induction false} EntryStays(json: JsonCheck, steps: seq<ChatStep>, i: nat, id: string, user: int)
    requires i <= |steps| && LeftAlone(json, steps, i, id, user)
    requires id in Run(json, steps[..i]).store.conversations
    requires Run(json, steps[..i]).store.conversations[id].userId == user
    ensures var s, s' := Run(json, steps[..i]).store, Run(json, steps).store;
            && id in s'.conversations && s'.conversations[id] == s.conversations[id]
            && s'.globalGeneration == s.globalGeneration && UserGeneration(s', user) == UserGeneration(s, user)
  {
    hide Next, LeavesAlone, UserGeneration;
    if i == |steps| {
      assert steps[..i] == steps;
    } else {
      var n := |steps| - 1;
      var init := steps[..n];
      assert init[..i] == steps[..i];
      forall k | i <= k < n ensures LeavesAlone(Run(json, init[..k]), init[k], id, user) {
        assert init[..k] == steps[..k];
        assert LeavesAlone(Run(json, steps[..k]), steps[k], id, user);
      }
      EntryStays(json, init, i, id, user);
      assert LeavesAlone(Run(json, steps[..n]), steps[n], id, user);
      StepLeaves(json, Run(json, init), steps[n], id, user);
    }
  }

  /** What resolving does: exactly a non-empty id and text and a Get that finds something resume that conversation; all
  else starts the minted one. */
  lemma ResolveResumesIff(json: JsonCheck, w: World, t: nat, requested: string, text: string, minted: string, now: int)
    requires Enabled(w, Resolve(t, requested, text, minted, now))
    ensures var turn, phase := w.turns[t], Next(json, w, Resolve(t, requested, text, minted, now)).turns[t].phase;
            if requested != "" && text != "" && Lookup(w.store, requested, turn.user, turn.binding, now).Some? then
              phase == Running(requested, Some(w.store.conversations[requested]))
            else phase == Running(minted, None)
  {
    hide Lookup;
  }

  /** A conversation goes on: a turn succeeded under it, since then no step wrote, deleted or evicted it or purged its
  user, and another turn of that user with the same account, whose binding is current, asks for it within the TTL.
  Then that turn runs under it, and what it has read is exactly what the first turn stored. */
  lemma ConversationResumes(json: JsonCheck, steps: seq<ChatStep>, i: nat, u: nat, text: string, minted: string,
                            now: int)
    requires i < |steps| && steps[i].Succeed? && Enabled(Run(json, steps[..i]), steps[i])
    requires var w, t := Run(json, steps[..i]), steps[i].turn;
             && Current(w.store, w.turns[t].user, w.turns[t].binding)
             && LeftAlone(json, steps, i + 1, w.turns[t].phase.convId, w.turns[t].user)
             && HasPhase(Run(json, steps), u, InChat)
             && Run(json, steps).turns[u].user == w.turns[t].user
             && Run(json, steps).turns[u].resolved == w.turns[t].resolved
             && Enabled(Run(json, steps), Resolve(u, w.turns[t].phase.convId, text, minted, now))
    requires Current(Run(json, steps).store, Run(json, steps).turns[u].user, Run(json, steps).turns[u].binding)
    requires text != "" && now - steps[i].stamp <= TTL
    ensures var first, w := Run(json, steps[..i]).turns[steps[i].turn], Run(json, steps);
            Next(json, w, Resolve(u, first.phase.convId, text, minted, now)).turns[u].phase ==
            Running(first.phase.convId,
                    Some(Conversation(first.user, first.binding, StoredForm(json, steps[i].final), steps[i].stamp)))
  {
    hide Run, Next, Enabled, LeavesAlone, Current, StoredForm, Lookup;
    var w, t := Run(json, steps[..i]), steps[i].turn;
    StoredEntryIs(json, w, steps[i]);
    var first, id := w.turns[t], w.turns[t].phase.convId;
    RunAt(json, steps, i);
    EntryStays(json, steps, i + 1, id, first.user);
    RunKeepsBound(json, steps[..i]);
    RunKeepsBound(json, steps);
    SameAccountSameBinding(w.store, first, Run(json, steps).store, Run(json, steps).turns[u]);
    IdNotEmpty(json, steps[..i], t);
    LookupIff(Run(json, steps).store, id, first.user, first.binding, now, StoredForm(json, steps[i].final));
    ResolveResumesIff(json, Run(json, steps), u, id, text, minted, now);
  }

  /** A turn that was begun since then has a current binding. */
  lemma BegunSinceIsCurrent(json: JsonCheck, steps: seq<ChatStep>, j: nat, id: string, user: int, r: Resolved)
    requires j <= |steps| && LeftAlone(json, steps, j, id, user)
    requires id in Run(json, steps[..j]).store.conversations
    requires Run(json, steps[..j]).store.conversations[id].userId == user
    ensures Current(Run(json, steps).store, user, BindingFor(Run(json, steps[..j]).store, user, r))
  {
    hide Run, LeftAlone;
    EntryStays(json, steps, j, id, user);
  }

  lemma RunAt(json: JsonCheck, steps: seq<ChatStep>, i: nat)
    requires i < |steps|
    ensures Run(json, steps[..i + 1]) == Next(json, Run(json, steps[..i]), steps[i])
  {
    hide Next;
    assert steps[..i + 1][..i] == steps[..i];
  }

  lemma IdNotEmpty(json: JsonCheck, steps: seq<ChatStep>, t: nat)
    requires IsRunning(Run(json, steps), t)
    ensures Run(json, steps).turns[t].phase.convId != ""
  {
    RunKeepsInv(json, steps);
    hide Run, StoreInv, AdmissionInv;
    assert ReadStillCurrent(Run(json, steps), t);
  }

  lemma StoredEntryIs(json: JsonCheck, w: World, step: ChatStep)
    requires step.Succeed? && Enabled(w, step)
    ensures IsRunning(w, step.turn)
    ensures var turn, s := w.turns[step.turn], Next(json, w, step).store;
            Current(w.store, turn.user, turn.binding) ==>
              && turn.phase.convId in s.conversations
              && s.conversations[turn.phase.convId] ==
                 Conversation(turn.user, turn.binding, StoredForm(json, step.final), step.stamp)
              && s.globalGeneration == w.store.globalGeneration && s.userGenerations == w.store.userGenerations
  {
    hide Current, StoredForm, Sanitize, Evicted;
    StoredFormStable(json, step.final);
  }

  lemma SameAccountSameBinding(s: StoreState, a: Turn, s': StoreState, b: Turn)
    requires BoundTo(a) && BoundTo(b) && a.user == b.user && a.resolved == b.resolved
    requires Current(s, a.user, a.binding) && Current(s', b.user, b.binding)
    requires s.globalGeneration == s'.globalGeneration && UserGeneration(s, a.user) == UserGeneration(s', a.user)
    ensures a.binding == b.binding
  {
  }

  // ----- Invalidation -----

  function GlobalPurges(steps: seq<ChatStep>): nat {
    if steps == [] then 0
    else GlobalPurges(steps[..|steps| - 1]) + if steps[|steps| - 1].ForgetAll? then 1 else 0
  }

  function UserPurges(steps: seq<ChatStep>, user: int): nat {
    if steps == [] then 0
    else UserPurges(steps[..|steps| - 1], user) + if steps[|steps| - 1] == ForgetUser(user) then 1 else 0
  }

  lemma {:induction false} PurgesConcat(a: seq<ChatStep>, b: seq<ChatStep>, user: int)
    ensures GlobalPurges(a + b) == GlobalPurges(a) + GlobalPurges(b)
    ensures UserPurges(a + b, user) == UserPurges(a, user) + UserPurges(b, user)
  {
    if b == [] {
      assert a + b == a;
    } else {
      PurgesConcat(a, b[..|b| - 1], user);
      assert (a + b)[..|a + b| - 1] == a + b[..|b| - 1];
    }
  }

  /** The generations count the invalidations, up to the wrap-around of their 64 bits. */
  lemma {:induction false} GenerationsCount(json: JsonCheck, steps: seq<ChatStep>, user: int)
    ensures Run(json, steps).store.globalGeneration == GlobalPurges(steps) % GENERATIONS
    ensures UserGeneration(Run(json, steps).store, user) == UserPurges(steps, user) % GENERATIONS
  {
    hide Next;
    if steps != [] {
      GenerationsCount(json, steps[..|steps| - 1], user);
      var w := Run(json, steps[..|steps| - 1]);
      GenerationsStep(json, w, steps[|steps| - 1], user);
      IncrementMod(GlobalPurges(steps[..|steps| - 1]));
      IncrementMod(UserPurges(steps[..|steps| - 1], user));
    }
  }

  lemma GenerationsStep(json: JsonCheck, w: World, step: ChatStep, user: int)
    ensures Next(json, w, step).store.globalGeneration ==
            if step.ForgetAll? then (w.store.globalGeneration + 1) % GENERATIONS else w.store.globalGeneration
    ensures UserGeneration(Next(json, w, step).store, user) ==
            if step == ForgetUser(user) then (UserGeneration(w.store, user) + 1) % GENERATIONS
            else UserGeneration(w.store, user)
  {
    hide StoreInv, AdmissionInv, Evicted, StoredForm, Sanitize, Acquired, Released, Lookup, Decision;
  }

  lemma IncrementMod(n: nat)
    ensures (n % GENERATIONS + 1) % GENERATIONS == (n + 1) % GENERATIONS
  {
  }

  lemma SameResidueIff(a: nat, b: nat)
    ensures (a + b) % GENERATIONS == a % GENERATIONS <==> b % GENERATIONS == 0
  {
  }

  /** A binding taken at some point of a run is current later exactly when both counters have gone full circle. */
  lemma BindingCurrentIff(json: JsonCheck, before: seq<ChatStep>, more: seq<ChatStep>, user: int, r: Resolved)
    ensures Current(Run(json, before + more).store, user, BindingFor(Run(json, before).store, user, r)) <==>
            GlobalPurges(more) % GENERATIONS == 0 && UserPurges(more, user) % GENERATIONS == 0
  {
    hide Run;
    GenerationsCount(json, before, user);
    GenerationsCount(json, before + more, user);
    PurgesConcat(before, more, user);
    SameResidueIff(GlobalPurges(before), GlobalPurges(more));
    SameResidueIff(UserPurges(before, user), UserPurges(more, user));
  }

  function Purges(n: nat): seq<ChatStep> {
    if n == 0 then [] else Purges(n - 1) + [ForgetAll]
  }

  lemma {:induction false} PurgesCount(n: nat, user: int)
    ensures |Purges(n)| == n && GlobalPurges(Purges(n)) == n && UserPurges(Purges(n), user) == 0
  {
    if n > 0 {
      PurgesCount(n - 1, user);
      assert Purges(n)[..|Purges(n)| - 1] == Purges(n - 1);
    }
  }

  /** The full circle is real: 2^64 purges in a row make an old binding current again. */
  lemma FullCircleRevives(json: JsonCheck, before: seq<ChatStep>, user: int, r: Resolved)
    ensures GlobalPurges(Purges(GENERATIONS)) > 0
    ensures Current(Run(json, before + Purges(GENERATIONS)).store, user, BindingFor(Run(json, before).store, user, r))
  {
    hide Run, Purges, GlobalPurges, UserPurges;
    PurgesCount(GENERATIONS, user);
    BindingCurrentIff(json, before, Purges(GENERATIONS), user, r);
  }

  lemma StaleIsNotStored(json: JsonCheck, s: StoreState, user: int, b: Binding)
    requires StoreInv(json, s) && b.owner == user && !Current(s, user, b)
    ensures forall id, reader, now :: Lookup(s, id, reader, b, now) == None
    ensures forall id :: id in s.conversations ==> s.conversations[id].binding != b
  {
    hide Normal, StoredForm;
    assert forall id :: id in s.conversations ==> EntryInv(json, s, id);
  }

  /** Invalidation is permanent: once the user or everyone was purged (fewer than 2^64 times), a binding taken before
  is refused by every Get and every Put, and nothing put under it is in the store for anyone to read. */
  lemma InvalidationPermanent(json: JsonCheck, before: seq<ChatStep>, more: seq<ChatStep>, user: int, r: Resolved)
    requires GlobalPurges(more) + UserPurges(more, user) > 0
    requires GlobalPurges(more) < GENERATIONS && UserPurges(more, user) < GENERATIONS
    ensures var b, s := BindingFor(Run(json, before).store, user, r), Run(json, before + more).store;
            && !Current(s, user, b)
            && (forall id, reader, now :: Lookup(s, id, reader, b, now) == None)
            && (forall id :: id in s.conversations ==> s.conversations[id].binding != b)
  {
    hide Run, StoreInv, AdmissionInv, Current, Lookup;
    BindingCurrentIff(json, before, more, user, r);
    RunKeepsInv(json, before + more);
    StaleIsNotStored(json, Run(json, before + more).store, user, BindingFor(Run(json, before).store, user, r));
  }
}
