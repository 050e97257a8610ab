/** chatAdmission: at most one chat per actor, 16 in all and 4 on the shared provider. */
module Admitting {
  import opened Options
  import opened Collections
  import opened Storing

  const MAX_CHATS: nat := 16
  const MAX_SHARED_CHATS: nat := 4

  /** A release closure: the variables it captured and whether its sync.Once has fired. */
  datatype Permit = Permit(key: string, shared: bool, released: bool)

  /** `global` and `shared` count the tokens in the two channels; permits are numbered as they are issued. */
  datatype AdmissionState = AdmissionState(actors: set<string>, global: nat, shared: nat, permits: seq<Permit>)

  const NO_CHATS := AdmissionState({}, 0, 0, [])

  datatype Admission = Admitted(permit: nat) | ActorBusy | CapacityBusy

  function LivePermits(s: AdmissionState): set<nat> {
    set p: nat | p < |s.permits| && !s.permits[p].released
  }

  function LiveSharedPermits(s: AdmissionState): set<nat> {
    set p: nat | p < |s.permits| && !s.permits[p].released && s.permits[p].shared
  }

  predicate Holds(s: AdmissionState, p: nat, key: string) {
    p < |s.permits| && !s.permits[p].released && s.permits[p].key == key
  }

  /** No actor holds two live permits. */
  ghost predicate KeysDistinct(s: AdmissionState) {
    forall p, q, key :: Holds(s, p, key) && Holds(s, q, key) ==> p == q
  }

  /** Live permits, actor keys and global tokens are in bijection, and shared tokens match live shared permits. */
  ghost predicate AdmissionInv(s: AdmissionState) {
    && (forall p, key :: Holds(s, p, key) ==> key in s.actors)
    && (forall key :: key in s.actors ==> exists p :: Holds(s, p, key))
    && KeysDistinct(s)
    && "" !in s.actors
    && |s.actors| == |LivePermits(s)| == s.global <= MAX_CHATS
    && |LiveSharedPermits(s)| == s.shared <= MAX_SHARED_CHATS
  }

  function Decision(s: AdmissionState, key: string, source: string): Admission {
    if key == "" || key in s.actors then ActorBusy
    else if s.global >= MAX_CHATS || (source == SHARED && s.shared >= MAX_SHARED_CHATS) then CapacityBusy
    else Admitted(|s.permits|)
  }

  function Issued(s: AdmissionState, permit: Permit): AdmissionState {
    AdmissionState(s.actors + {permit.key}, s.global + 1, if permit.shared then s.shared + 1 else s.shared,
                   s.permits + [permit])
  }

  function Acquired(s: AdmissionState, key: string, source: string): AdmissionState {
    if !Decision(s, key, source).Admitted? then s
    else Issued(s, Permit(key, source == SHARED, false))
  }

  /** The release closure of permit `p` finds the tokens it receives: none of its receives blocks. */
  predicate TokensAvailable(s: AdmissionState, p: nat) {
    p < |s.permits| && !s.permits[p].released ==> s.global > 0 && (s.permits[p].shared ==> s.shared > 0)
  }

  function Released(s: AdmissionState, p: nat): AdmissionState
    requires TokensAvailable(s, p)
  {
    if p >= |s.permits| || s.permits[p].released then s
    else
      var permit := s.permits[p];
      AdmissionState(s.actors - {permit.key}, s.global - 1, if permit.shared then s.shared - 1 else s.shared,
                     s.permits[p := permit.(released := true)])
  }

  class ChatAdmission {
    var actors: set<string>
    var global: nat
    var shared: nat
    var permits: seq<Permit>

    constructor ()
      ensures State() == NO_CHATS
    {
      actors, global, shared, permits := {}, 0, 0, [];
    }

    function State(): AdmissionState
      reads this
    {
      AdmissionState(actors, global, shared, permits)
    }

    method TryAcquireKey(key: string, source: string) returns (r: Admission)
      requires AdmissionInv(State())
      modifies this
      ensures r == Decision(old(State()), key, source)
      ensures State() == Acquired(old(State()), key, source)
      ensures AdmissionInv(State())
    {
      AcquireKeepsInv(State(), key, source);
      if key == "" {
        return ActorBusy;
      }
      if key in actors {
        return ActorBusy;
      }
      if global < MAX_CHATS {
        global := global + 1;
      } else {
        return CapacityBusy;
      }
      var wantsShared := source == SHARED;
      if wantsShared {
        if shared < MAX_SHARED_CHATS {
          shared := shared + 1;
        } else {
          ReceiveGlobal();
          return CapacityBusy;
        }
      }
      actors := actors + {key};
      permits := permits + [Permit(key, wantsShared, false)];
      r := Admitted(|permits| - 1);
    }

    /** The release closure of permit `p`.  It never waits on an empty channel while it holds the mutex. */
    method Release(p: nat)
      requires AdmissionInv(State()) && p < |permits|
      modifies this
      ensures TokensAvailable(old(State()), p) && State() == Released(old(State()), p)
      ensures AdmissionInv(State())
    {
      ReleaseKeepsInv(State(), p);
      if !permits[p].released {
        var permit := permits[p];
        permits := permits[p := permit.(released := true)];
        actors := actors - {permit.key};
        ReceiveGlobal();
        if permit.shared {
          ReceiveShared();
        }
      }
    }

    /** Receiving from a channel: it would block on an empty one. */
    method ReceiveGlobal()
      requires global > 0
      modifies this`global
      ensures global == old(global) - 1
    {
      global := global - 1;
    }

    method ReceiveShared()
      requires shared > 0
      modifies this`shared
      ensures shared == old(shared) - 1
    {
      shared := shared - 1;
    }
  }

  lemma TokensLeft(s: AdmissionState, p: nat)
    requires AdmissionInv(s)
    ensures TokensAvailable(s, p)
  {
    if p < |s.permits| && !s.permits[p].released {
      assert p in LivePermits(s);
      assert s.permits[p].shared ==> p in LiveSharedPermits(s);
    }
  }

  lemma AcquireKeepsInv(s: AdmissionState, key: string, source: string)
    requires AdmissionInv(s)
    ensures AdmissionInv(Acquired(s, key, source))
  {
    if Decision(s, key, source).Admitted? {
      IssueKeepsInv(s, Permit(key, source == SHARED, false));
    }
  }

  lemma IssueKeepsInv(s: AdmissionState, permit: Permit)
    requires AdmissionInv(s) && permit.key != "" && permit.key !in s.actors && !permit.released
    requires s.global < MAX_CHATS && (permit.shared ==> s.shared < MAX_SHARED_CHATS)
    ensures AdmissionInv(Issued(s, permit))
  {
    var s', n := Issued(s, permit), |s.permits|;
    LiveAfterIssue(s, permit);
    AddOne(s.actors, permit.key);
    hide LivePermits, LiveSharedPermits;
    assert forall p, key :: Holds(s', p, key) <==> if p == n then key == permit.key else Holds(s, p, key);
    forall key | key in s.actors ensures exists p :: Holds(s', p, key) {
      var p :| Holds(s, p, key);
      assert Holds(s', p, key);
    }
    assert Holds(s', n, permit.key);
  }

  lemma LiveAfterIssue(s: AdmissionState, permit: Permit)
    requires !permit.released
    ensures |LivePermits(Issued(s, permit))| == |LivePermits(s)| + 1
    ensures |LiveSharedPermits(Issued(s, permit))| == |LiveSharedPermits(s)| + if permit.shared then 1 else 0
  {
    var p := |s.permits|;
    assert LivePermits(Issued(s, permit)) == LivePermits(s) + {p};
    AddOne(LivePermits(s), p);
    if permit.shared {
      assert LiveSharedPermits(Issued(s, permit)) == LiveSharedPermits(s) + {p};
      AddOne(LiveSharedPermits(s), p);
    } else {
      assert LiveSharedPermits(Issued(s, permit)) == LiveSharedPermits(s);
    }
  }

  lemma ReleaseKeepsInv(s: AdmissionState, n: nat)
    requires AdmissionInv(s)
    ensures TokensAvailable(s, n) && AdmissionInv(Released(s, n))
  {
    TokensLeft(s, n);
    if n < |s.permits| && !s.permits[n].released {
      var s' := Released(s, n);
      LiveAfterRelease(s, n);
      assert Holds(s, n, s.permits[n].key);
      hide LivePermits, LiveSharedPermits;
      assert forall p, key :: Holds(s', p, key) <==> p != n && Holds(s, p, key);
    }
  }

  lemma LiveAfterRelease(s: AdmissionState, p: nat)
    requires TokensAvailable(s, p) && p < |s.permits| && !s.permits[p].released
    ensures |LivePermits(Released(s, p))| == |LivePermits(s)| - 1
    ensures |LiveSharedPermits(Released(s, p))| == |LiveSharedPermits(s)| - if s.permits[p].shared then 1 else 0
  {
    assert LivePermits(Released(s, p)) == LivePermits(s) - {p};
    if s.permits[p].shared {
      assert LiveSharedPermits(Released(s, p)) == LiveSharedPermits(s) - {p};
    } else {
      assert LiveSharedPermits(Released(s, p)) == LiveSharedPermits(s);
    }
  }

  // ----- Who is admitted -----

  /** The decision in terms of the permits that are out: exactly who finds its key free and room under both limits is
  admitted, and who finds its key taken is told so. */
  lemma AdmissionIff(s: AdmissionState, key: string, source: string)
    requires AdmissionInv(s)
    ensures Decision(s, key, source).Admitted? <==>
            && key != "" && (forall p :: !Holds(s, p, key)) && |LivePermits(s)| < 16
            && (source == "shared" ==> |LiveSharedPermits(s)| < 4)
    ensures Decision(s, key, source).ActorBusy? <==> key == "" || exists p :: Holds(s, p, key)
  {
    hide LivePermits, LiveSharedPermits;
  }

  /** Admission hands out one more live permit for that key, shared exactly for the shared provider; a refusal changes
  nothing. */
  lemma AcquiredExactly(s: AdmissionState, key: string, source: string)
    requires AdmissionInv(s)
    ensures var s' := Acquired(s, key, source);
            if Decision(s, key, source).Admitted? then
              && Decision(s, key, source).permit == |s.permits|
              && s'.permits == s.permits + [Permit(key, source == "shared", false)]
              && forall p, k :: Holds(s', p, k) <==> Holds(s, p, k) || (p == |s.permits| && k == key)
            else s' == s
  {
  }

  /** A release ends exactly its own permit. */
  lemma ReleasedExactly(s: AdmissionState, n: nat)
    requires AdmissionInv(s) && TokensAvailable(s, n)
    ensures forall p, k :: Holds(Released(s, n), p, k) <==> Holds(s, p, k) && p != n
  {
  }

  // ----- Whole runs -----

  datatype Op = TryAcquire(key: string, source: string) | Release(permit: nat)

  /** The state after a run, each operation being one critical section. */
  function After(s: AdmissionState, ops: seq<Op>): (s': AdmissionState)
    requires AdmissionInv(s)
    ensures AdmissionInv(s')
  {
    if ops == [] then s
    else
      var t := After(s, ops[..|ops| - 1]);
      match ops[|ops| - 1]
      case TryAcquire(key, source) => AcquireKeepsInv(t, key, source); Acquired(t, key, source)
      case Release(p) => ReleaseKeepsInv(t, p); Released(t, p)
  }

  /** After any interleaving of acquires and releases, repeated releases included: no two live permits share an
  actor, at most 16 are live and at most 4 of them shared; and whenever all are released, the initial state is back. */
  lemma AdmissionSafe(ops: seq<Op>)
    ensures AdmissionInv(NO_CHATS)
    ensures var s := After(NO_CHATS, ops);
            && KeysDistinct(s)
            && |LivePermits(s)| == |s.actors| == s.global <= MAX_CHATS
            && |LiveSharedPermits(s)| == s.shared <= MAX_SHARED_CHATS
            && (LivePermits(s) == {} ==> s.(permits := []) == NO_CHATS)
  {
    NothingLive(NO_CHATS);
    var s := After(NO_CHATS, ops);
    NothingLive(s);
  }

  lemma NothingLive(s: AdmissionState)
    ensures LiveSharedPermits(s) <= LivePermits(s)
    ensures s.permits == [] ==> LivePermits(s) == {}
  {
  }
}
