/** conversationStore: transcripts bound to the provider account they were made with. */
module Storing {
  import opened Options
  import opened Collections
  import opened Transcripts
  import opened Sanitizing
  import opened Trimming

  const TTL: int := 4 * 3600 * 1_000_000_000
  const MAX_CONVERSATIONS: nat := 200
  /** Generations are uint64 counters. */
  const GENERATIONS: nat := 0x1_0000_0000_0000_0000

  const PERSONAL: string := "personal"
  const SHARED: string := "shared"

  /** A provider account as the resolver chose it; `apiKey` is "" for one without a key. */
  datatype Resolved = Resolved(source: string, provider: string, model: string, apiKey: string)

  datatype Binding = Binding(
    owner: int, source: string, provider: string, model: string, personalAccount: int,
    credential: Option<string>, globalGeneration: nat, userGeneration: nat)

  datatype Conversation = Conversation(userId: int, binding: Binding, messages: Transcript, updatedAt: int)

  type Conversations = map<string, Conversation>

  datatype StoreState = StoreState(conversations: Conversations, globalGeneration: nat, userGenerations: map<int, nat>)

  const EMPTY_STORE := StoreState(map[], 0, map[])

  function UserGeneration(s: StoreState, userId: int): nat {
    if userId in s.userGenerations then s.userGenerations[userId] else 0
  }

  function BindingFor(s: StoreState, userId: int, r: Resolved): Binding {
    Binding(userId, r.source, r.provider, r.model, if r.source == PERSONAL then userId else 0,
            Fingerprint(r.apiKey), s.globalGeneration, UserGeneration(s, userId))
  }

  /** A key stands for its own SHA-256. */
  function Fingerprint(apiKey: string): Option<string> {
    if apiKey == "" then None else Some(apiKey)
  }

  /** bindingCurrentLocked */
  predicate Current(s: StoreState, userId: int, b: Binding) {
    && b.owner == userId
    && (b.source == PERSONAL ==> b.personalAccount == userId)
    && b.globalGeneration == s.globalGeneration
    && b.userGeneration == UserGeneration(s, userId)
  }

  predicate Expired(c: Conversation, now: int) {
    now - c.updatedAt > TTL
  }

  /** What Get returns: the entry's messages, for its own user, its own current binding, before it expires. */
  function Lookup(s: StoreState, id: string, userId: int, b: Binding, now: int): Option<Transcript> {
    if Current(s, userId, b) && id in s.conversations && s.conversations[id].userId == userId
       && s.conversations[id].binding == b && !Expired(s.conversations[id], now)
    then Some(s.conversations[id].messages)
    else None
  }

  // ----- Eviction -----

  function Live(cs: Conversations, now: int): Conversations {
    map id | id in cs && !Expired(cs[id], now) :: cs[id]
  }

  predicate OlderFirst(cs: Conversations, dropped: string, kept: string)
    requires dropped in cs && kept in cs
  {
    cs[dropped].updatedAt <= cs[kept].updatedAt
  }

  /** Eviction keeps the unexpired entries if there are at most 199, otherwise 199 of them such that no dropped
  entry is newer than a kept one.  The last part needs the ids to be non-empty: the search for the oldest entry
  uses the empty id as its "nothing found yet". */
  predicate Evicted(before: Conversations, after: Conversations, now: int) {
    var live := Live(before, now);
    && after.Keys <= live.Keys
    && (forall id :: id in after ==> after[id] == before[id])
    && |after| == (if |live| < MAX_CONVERSATIONS then |live| else MAX_CONVERSATIONS - 1)
    && ("" !in before ==>
          forall dropped, kept :: dropped in live && dropped !in after && kept in after ==>
            OlderFirst(before, dropped, kept))
  }

  // ----- The invariant -----

  /** An entry is bound to its own user under the current generations and holds a transcript in stored form. */
  predicate EntryInv(json: JsonCheck, s: StoreState, id: string)
    requires id in s.conversations
  {
    var c := s.conversations[id];
    && Current(s, c.userId, c.binding)
    && StoredForm(json, c.messages) == c.messages
  }

  predicate StoreInv(json: JsonCheck, s: StoreState) {
    && (forall id {:trigger EntryInv(json, s, id)} :: id in s.conversations ==> EntryInv(json, s, id))
    && |s.conversations| <= MAX_CONVERSATIONS
  }

  function AfterPut(s: StoreState, kept: Conversations, id: string, c: Conversation): StoreState {
    s.(conversations := kept[id := c])
  }

  function AfterDelete(s: StoreState, id: string): StoreState {
    s.(conversations := s.conversations - {id})
  }

  function AfterDeleteForUser(s: StoreState, userId: int): StoreState {
    s.(userGenerations := s.userGenerations[userId := (UserGeneration(s, userId) + 1) % GENERATIONS],
       conversations := map id | id in s.conversations && s.conversations[id].userId != userId :: s.conversations[id])
  }

  function AfterDeleteAll(s: StoreState): StoreState {
    s.(globalGeneration := (s.globalGeneration + 1) % GENERATIONS, conversations := map[])
  }

  class ConversationStore {
    const json: JsonCheck
    var conversations: Conversations
    var globalGeneration: nat
    var userGenerations: map<int, nat>

    constructor (json: JsonCheck)
      ensures this.json == json && State() == EMPTY_STORE && StoreInv(json, State())
    {
      this.json := json;
      conversations, globalGeneration, userGenerations := map[], 0, map[];
    }

    function State(): StoreState
      reads this
    {
      StoreState(conversations, globalGeneration, userGenerations)
    }

    method NewBinding(userId: int, r: Resolved) returns (b: Binding)
      ensures b == BindingFor(State(), userId, r)
      ensures Current(State(), userId, b)
    {
      b := Binding(userId, r.source, r.provider, r.model, 0, None, 0, 0);
      if r.source == PERSONAL {
        b := b.(personalAccount := userId);
      }
      if r.apiKey != "" {
        b := b.(credential := Some(r.apiKey));
      }
      b := b.(globalGeneration := globalGeneration);
      b := b.(userGeneration := if userId in userGenerations then userGenerations[userId] else 0);
    }

    method Get(id: string, userId: int, b: Binding, now: int) returns (r: Option<Transcript>)
      ensures r == Lookup(State(), id, userId, b, now)
    {
      if !Current(State(), userId, b) || id !in conversations {
        return None;
      }
      var c := conversations[id];
      if c.userId != userId || c.binding != b || now - c.updatedAt > TTL {
        return None;
      }
      return Some(c.messages);
    }

    /** `now` is the clock reading of the eviction, `stamp` that of the new entry. */
    method Put(id: string, userId: int, b: Binding, messages: Transcript, now: int, stamp: int) returns (ok: bool)
      requires StoreInv(json, State())
      modifies this
      ensures StoreInv(json, State())
      ensures ok == Current(old(State()), userId, b)
      ensures !ok ==> State() == old(State())
      ensures ok ==> exists kept :: Evicted(old(conversations), kept, now)
                       && State() == AfterPut(old(State()), kept, id,
                                              Conversation(userId, b, StoredForm(json, messages), stamp))
      ensures ok ==> forall later :: later - stamp <= TTL ==>
                       Lookup(State(), id, userId, b, later) == Some(StoredForm(json, messages))
    {
      hide StoreInv, Evicted, Trim, Sanitize, Normal;
      var clean := SanitizeTranscript(json, messages);
      var trimmed := TrimHistory(clean, MAX_STORED_MESSAGES);
      if !Current(State(), userId, b) {
        return false;
      }
      EvictLocked(now);
      ghost var kept := conversations;
      conversations := conversations[id := Conversation(userId, b, trimmed, stamp)];
      PutKeepsInv(json, old(State()), kept, id, userId, b, messages, now, stamp);
      return true;
    }

    method Delete(id: string)
      requires StoreInv(json, State())
      modifies this`conversations
      ensures State() == AfterDelete(old(State()), id)
      ensures StoreInv(json, State())
    {
      DeleteKeepsInv(json, State(), id);
      conversations := conversations - {id};
    }

    method DeleteForUser(userId: int)
      requires StoreInv(json, State())
      modifies this`conversations, this`userGenerations
      ensures State() == AfterDeleteForUser(old(State()), userId)
      ensures StoreInv(json, State())
    {
      hide StoreInv;
      DeleteForUserKeepsInv(json, State(), userId);
      var generation := if userId in userGenerations then userGenerations[userId] else 0;
      userGenerations := userGenerations[userId := (generation + 1) % GENERATIONS];
      DropUser(userId);
    }

    /** The loop of DeleteForUser. */
    method DropUser(userId: int)
      modifies this`conversations
      ensures conversations == map id | id in old(conversations) && old(conversations)[id].userId != userId
                                 :: old(conversations)[id]
    {
      var ids := conversations.Keys;
      while ids != {}
        invariant ids <= old(conversations).Keys
        invariant conversations == map id
                    | id in old(conversations) && (id in ids || old(conversations)[id].userId != userId)
                    :: old(conversations)[id]
      {
        var id :| id in ids;
        ids := ids - {id};
        if conversations[id].userId == userId {
          conversations := conversations - {id};
        }
      }
    }

    method DeleteAll()
      modifies this`conversations, this`globalGeneration
      ensures State() == AfterDeleteAll(old(State()))
      ensures StoreInv(json, State())
    {
      globalGeneration := (globalGeneration + 1) % GENERATIONS;
      conversations := map[];
    }

    method EvictLocked(now: int)
      modifies this`conversations
      ensures Evicted(old(conversations), conversations, now)
    {
      DropExpired(now);
      while |conversations| >= MAX_CONVERSATIONS
        invariant conversations.Keys <= Live(old(conversations), now).Keys
        invariant forall id :: id in conversations ==> conversations[id] == old(conversations)[id]
        invariant |conversations| == |Live(old(conversations), now)| || |conversations| >= MAX_CONVERSATIONS - 1
        invariant |conversations| <= |Live(old(conversations), now)|
        invariant "" !in old(conversations) ==>
            forall dropped, kept ::
              dropped in Live(old(conversations), now) && dropped !in conversations && kept in conversations ==>
                OlderFirst(old(conversations), dropped, kept)
      {
        var oldestId := OldestId();
        RemoveOne(conversations, oldestId);
        conversations := conversations - {oldestId};
      }
      SubmapSize(conversations, Live(old(conversations), now));
    }

    /** The first loop of evictLocked. */
    method DropExpired(now: int)
      modifies this`conversations
      ensures conversations == Live(old(conversations), now)
    {
      var ids := conversations.Keys;
      while ids != {}
        invariant ids <= old(conversations).Keys
        invariant conversations == map id
                    | id in old(conversations) && (id in ids || !Expired(old(conversations)[id], now))
                    :: old(conversations)[id]
      {
        var id :| id in ids;
        ids := ids - {id};
        if now - conversations[id].updatedAt > TTL {
          conversations := conversations - {id};
        }
      }
    }

    /** The inner loop of evictLocked, for any iteration order of the map. */
    method OldestId() returns (oldestId: string)
      requires conversations != map[]
      ensures oldestId in conversations
      ensures "" !in conversations ==> forall id :: id in conversations ==> OlderFirst(conversations, oldestId, id)
    {
      oldestId := "";
      var oldest, ids := 0, conversations.Keys;
      while ids != {}
        invariant ids <= conversations.Keys
        invariant ids == conversations.Keys
                  || (oldestId in conversations && oldest == conversations[oldestId].updatedAt)
        invariant ids == conversations.Keys ==> oldestId == ""
        invariant "" !in conversations ==>
                    forall id :: id in conversations && id !in ids ==> oldest <= conversations[id].updatedAt
      {
        var id :| id in ids;
        ids := ids - {id};
        var c := conversations[id];
        if oldestId == "" || c.updatedAt < oldest {
          oldestId, oldest := id, c.updatedAt;
        }
      }
    }
  }

  lemma RemoveOne(cs: Conversations, id: string)
    requires id in cs
    ensures |cs - {id}| == |cs| - 1
  {
    assert (cs - {id}).Keys == cs.Keys - {id};
  }

  lemma SubmapSize(a: Conversations, b: Conversations)
    requires a.Keys <= b.Keys
    ensures |a| <= |b|
    ensures |a| == |b| ==> a.Keys == b.Keys
  {
    assert |b.Keys| == |a.Keys| + |b.Keys - a.Keys|;
  }

  /** What eviction leaves is part of what was there, with room for one more entry. */
  lemma EvictedIsSubmap(before: Conversations, kept: Conversations, now: int)
    requires Evicted(before, kept, now)
    ensures forall id :: id in kept ==> id in before && kept[id] == before[id]
    ensures |kept| < MAX_CONVERSATIONS
  {
    assert forall id :: id in kept ==> id in Live(before, now).Keys;
  }

  lemma SameEntry(json: JsonCheck, s: StoreState, s': StoreState, id: string)
    requires id in s.conversations && id in s'.conversations && s'.conversations[id] == s.conversations[id]
    requires s'.globalGeneration == s.globalGeneration
    requires UserGeneration(s', s.conversations[id].userId) == UserGeneration(s, s.conversations[id].userId)
    ensures EntryInv(json, s', id) <==> EntryInv(json, s, id)
  {
  }

  lemma PutKeepsInv(json: JsonCheck, s: StoreState, kept: Conversations, id: string, userId: int, b: Binding,
                    messages: Transcript, now: int, stamp: int)
    requires StoreInv(json, s) && Current(s, userId, b) && Evicted(s.conversations, kept, now)
    ensures StoreInv(json, AfterPut(s, kept, id, Conversation(userId, b, StoredForm(json, messages), stamp)))
  {
    var c := Conversation(userId, b, StoredForm(json, messages), stamp);
    var s' := AfterPut(s, kept, id, c);
    StoredEntry(json, messages);
    EvictedIsSubmap(s.conversations, kept, now);
    AddedSize(kept, id, c);
    assert EntryInv(json, s', id);
    hide StoredForm, Evicted, EntryInv;
    forall k | k in s'.conversations && k != id ensures EntryInv(json, s', k) {
      assert EntryInv(json, s, k);
      SameEntry(json, s, s', k);
    }
  }

  lemma AddedSize(cs: Conversations, id: string, c: Conversation)
    ensures |cs[id := c]| <= |cs| + 1
  {
    assert cs[id := c].Keys == cs.Keys + {id};
  }

  // ----- What a binding and the removals mean -----

  /** Another user, source, provider, model or key gives another binding, whenever the two were taken. */
  lemma BindingIdentifies(s: StoreState, userId: int, r: Resolved, s': StoreState, userId': int, r': Resolved)
    requires BindingFor(s, userId, r) == BindingFor(s', userId', r')
    ensures userId == userId' && r == r'
    ensures s.globalGeneration == s'.globalGeneration && UserGeneration(s, userId) == UserGeneration(s', userId')
  {
  }

  /** A binding is current exactly for its own user, while neither generation has moved. */
  lemma TakenBindingCurrentIff(s: StoreState, userId: int, r: Resolved, s': StoreState, userId': int)
    ensures Current(s', userId', BindingFor(s, userId, r)) <==>
            && userId == userId' && s.globalGeneration == s'.globalGeneration
            && UserGeneration(s, userId) == UserGeneration(s', userId)
  {
  }

  lemma DeleteRemovesOne(s: StoreState, id: string)
    ensures var after := AfterDelete(s, id);
            && id !in after.conversations
            && (forall k :: k != id ==> (k in after.conversations <==> k in s.conversations))
            && (forall k :: k in after.conversations ==> after.conversations[k] == s.conversations[k])
            && after.globalGeneration == s.globalGeneration && after.userGenerations == s.userGenerations
  {
  }

  /** Purging a user removes exactly the user's entries and moves no generation but the user's, by one. */
  lemma PurgeRemovesUser(s: StoreState, userId: int)
    requires UserGeneration(s, userId) < GENERATIONS
    ensures var after := AfterDeleteForUser(s, userId);
            && (forall k :: k in after.conversations <==> k in s.conversations && s.conversations[k].userId != userId)
            && (forall k :: k in after.conversations ==> after.conversations[k] == s.conversations[k])
            && after.globalGeneration == s.globalGeneration
            && (forall u :: u != userId ==> UserGeneration(after, u) == UserGeneration(s, u))
            && UserGeneration(after, userId) != UserGeneration(s, userId)
            && (UserGeneration(s, userId) + 1 < GENERATIONS ==>
                  UserGeneration(after, userId) == UserGeneration(s, userId) + 1)
  {
  }

  lemma PurgeRemovesAll(s: StoreState)
    requires s.globalGeneration < GENERATIONS
    ensures var after := AfterDeleteAll(s);
            && after.conversations == map[] && after.userGenerations == s.userGenerations
            && after.globalGeneration != s.globalGeneration
            && (s.globalGeneration + 1 < GENERATIONS ==> after.globalGeneration == s.globalGeneration + 1)
  {
  }

  /** A Get finds an entry exactly for its own user and binding, as long as that is current and for four hours. */
  lemma LookupIff(s: StoreState, id: string, userId: int, b: Binding, now: int, ms: Transcript)
    ensures Lookup(s, id, userId, b, now) == Some(ms) <==>
            && Current(s, userId, b) && id in s.conversations
            && s.conversations[id].userId == userId && s.conversations[id].binding == b
            && now - s.conversations[id].updatedAt <= 14_400_000_000_000
            && s.conversations[id].messages == ms
  {
  }

  // ----- Who survives a Put -----

  function Smaller(a: nat, b: nat): nat {
    if a < b then a else b
  }

  /** As many other entries as fit survive a Put of `id`: all unexpired ones, but at most 199 of them. */
  predicate KeepsAllThatFit(before: Conversations, kept: Conversations, id: string, now: int) {
    |kept - {id}| == Smaller(|Live(before, now) - {id}|, MAX_CONVERSATIONS - 1)
  }

  /** The store is full, already holds `id`, and has another conversation that is no newer. */
  predicate DropsOneTooMany(before: Conversations, id: string, now: int) {
    && |Live(before, now)| == MAX_CONVERSATIONS && id in Live(before, now)
    && exists o :: o in Live(before, now) && o != id && OlderFirst(before, o, id)
  }

  lemma KeptDecides(before: Conversations, kept: Conversations, id: string, now: int)
    requires Evicted(before, kept, now)
    ensures KeepsAllThatFit(before, kept, id, now) <==> !(|Live(before, now)| >= MAX_CONVERSATIONS && id in kept)
    ensures |kept - {id}| + 1 >= Smaller(|Live(before, now) - {id}|, MAX_CONVERSATIONS - 1)
  {
    var live := Live(before, now);
    hide Live;
    WithoutSize(kept, id);
    WithoutSize(live, id);
    SubmapSize(kept, live);
    assert id in kept ==> id in live.Keys;
  }

  /** Put evicts before it overwrites.  Whatever it evicts, as many other entries as fit survive, unless the store is
  full and already holds `id`, and `id` is not older than all others; then one entry more than needed can go. */
  lemma OtherSurvivorsIff(before: Conversations, id: string, now: int)
    requires "" !in before && |before| <= MAX_CONVERSATIONS
    ensures (forall kept :: Evicted(before, kept, now) ==> KeepsAllThatFit(before, kept, id, now))
            <==> !DropsOneTooMany(before, id, now)
  {
    hide KeepsAllThatFit;
    if DropsOneTooMany(before, id, now) {
      var kept := LegalEvictionKeeping(before, id, now);
      KeptDecides(before, kept, id, now);
    } else {
      forall kept | Evicted(before, kept, now) ensures KeepsAllThatFit(before, kept, id, now) {
        KeptDecides(before, kept, id, now);
        if |Live(before, now)| >= MAX_CONVERSATIONS && id in kept {
          KeptIsNotOldest(before, kept, id, now);
        }
      }
    }
  }

  lemma KeptIsNotOldest(before: Conversations, kept: Conversations, id: string, now: int)
    requires "" !in before && |before| <= MAX_CONVERSATIONS
    requires Evicted(before, kept, now) && |Live(before, now)| >= MAX_CONVERSATIONS && id in kept
    ensures DropsOneTooMany(before, id, now)
  {
    var live := Live(before, now);
    SubmapSize(live, before);
    SubmapSize(kept, live);
    assert id in live.Keys;
    assert |live.Keys| == |kept.Keys| + |live.Keys - kept.Keys|;
    var o :| o in live.Keys - kept.Keys;
    assert o in live && o !in kept && o != id;
    assert OlderFirst(before, o, id);
  }

  lemma {:induction false} Oldest(cs: Conversations, ids: set<string>) returns (oldest: string)
    requires ids != {} && ids <= cs.Keys
    ensures oldest in ids && forall id :: id in ids ==> OlderFirst(cs, oldest, id)
    decreases |ids|
  {
    var first :| first in ids;
    oldest := first;
    if ids - {first} != {} {
      var rest := Oldest(cs, ids - {first});
      if OlderFirst(cs, rest, first) {
        oldest := rest;
      }
      assert forall id :: id in ids ==> id == first || OlderFirst(cs, rest, id);
    } else {
      assert ids == {first};
    }
  }

  lemma LegalEvictionKeeping(before: Conversations, id: string, now: int) returns (kept: Conversations)
    requires DropsOneTooMany(before, id, now)
    ensures Evicted(before, kept, now) && id in kept
  {
    var live := Live(before, now);
    var o :| o in live && o != id && OlderFirst(before, o, id);
    assert o in live.Keys - {id};
    var oldest := Oldest(before, live.Keys - {id});
    kept := live - {oldest};
    RemoveOne(live, oldest);
    assert OlderFirst(before, oldest, o);
    forall k | k in kept ensures OlderFirst(before, oldest, k) {
      assert k == id || k in live.Keys - {id};
    }
  }

  lemma WithoutSize(cs: Conversations, id: string)
    ensures |cs - {id}| == |cs| - if id in cs then 1 else 0
  {
    if id in cs {
      RemoveOne(cs, id);
    } else {
      assert cs - {id} == cs;
    }
  }

  function Name(n: nat): string {
    seq(n, _ => 'c')
  }

  function Entry(n: nat): Conversation {
    Conversation(0, BindingFor(EMPTY_STORE, 0, Resolved(SHARED, "", "", "")), [], n)
  }

  /** `n` conversations, each newer than the one before. */
  function Filled(n: nat): Conversations {
    if n == 0 then map[] else Filled(n - 1)[Name(n) := Entry(n)]
  }

  predicate NamedByAge(cs: Conversations, n: nat) {
    && |cs| == n
    && forall id :: id in cs ==> 1 <= |id| <= n && cs[id].updatedAt == |id|
  }

  lemma AddNewer(cs: Conversations, n: nat)
    requires NamedByAge(cs, n)
    ensures NamedByAge(cs[Name(n + 1) := Entry(n + 1)], n + 1)
  {
    NameSize(n + 1);
    hide Name;
    assert cs[Name(n + 1) := Entry(n + 1)].Keys == cs.Keys + {Name(n + 1)};
    AddOne(cs.Keys, Name(n + 1));
  }

  lemma {:induction false} FilledSize(n: nat)
    ensures NamedByAge(Filled(n), n)
    ensures n >= 1 ==> Name(1) in Filled(n) && Name(n) in Filled(n)
  {
    hide NamedByAge, Name, Entry;
    if n > 0 {
      FilledSize(n - 1);
      AddNewer(Filled(n - 1), n - 1);
    } else {
      assert NamedByAge(map[], 0) by { EmptyNamed(); }
    }
  }

  lemma EmptyNamed()
    ensures NamedByAge(map[], 0)
  {
  }

  /** The exception occurs: writing to the newest of 200 conversations leaves 198 others, although 199 would fit. */
  lemma OverwritingFullStoreDropsOneTooMany() returns (before: Conversations, kept: Conversations, id: string, now: int)
    ensures Evicted(before, kept, now) && id in before && |Live(before, now)| == MAX_CONVERSATIONS
    ensures |kept - {id}| == MAX_CONVERSATIONS - 2 && DropsOneTooMany(before, id, now)
  {
    now := MAX_CONVERSATIONS;
    hide Filled, Name, Evicted, Live, DropsOneTooMany, NamedByAge;
    before, id := Filled(now), Name(now);
    kept := before - {Name(1)};
    FilledSize(now);
    NameSize(1);
    NameSize(now);
    FirstIsEvicted(before, Name(1), id);
  }

  lemma FirstIsEvicted(before: Conversations, oldest: string, id: string)
    requires NamedByAge(before, MAX_CONVERSATIONS) && oldest in before && |oldest| == 1 && id in before && |id| > 1
    ensures Live(before, MAX_CONVERSATIONS) == before
    ensures Evicted(before, before - {oldest}, MAX_CONVERSATIONS)
    ensures |before - {oldest} - {id}| == MAX_CONVERSATIONS - 2
    ensures DropsOneTooMany(before, id, MAX_CONVERSATIONS)
  {
    var kept := before - {oldest};
    assert Live(before, MAX_CONVERSATIONS) == before;
    RemoveOne(before, oldest);
    RemoveOne(kept, id);
    assert OlderFirst(before, oldest, id);
    forall dropped, survivor | dropped in before && dropped !in kept && survivor in kept
      ensures OlderFirst(before, dropped, survivor)
    {
      assert dropped == oldest;
    }
  }

  lemma NameSize(n: nat)
    ensures |Name(n)| == n
  {
  }

  lemma StoredEntry(json: JsonCheck, messages: Transcript)
    ensures Normal(json, StoredForm(json, messages))
    ensures StoredForm(json, StoredForm(json, messages)) == StoredForm(json, messages)
  {
    StoredFormStable(json, messages);
    SanitizeFixedIff(json, StoredForm(json, messages));
  }

  /** Dropping entries keeps the invariant as long as the generations of the remaining owners stay. */
  lemma FewerKeepsInv(json: JsonCheck, s: StoreState, s': StoreState)
    requires StoreInv(json, s) && s'.globalGeneration == s.globalGeneration
    requires forall id :: id in s'.conversations ==>
               && id in s.conversations && s'.conversations[id] == s.conversations[id]
               && UserGeneration(s', s.conversations[id].userId) == UserGeneration(s, s.conversations[id].userId)
    ensures StoreInv(json, s')
  {
    hide UserGeneration;
    forall id | id in s'.conversations ensures EntryInv(json, s', id) {
      assert EntryInv(json, s, id);
      SameEntry(json, s, s', id);
    }
    SubmapSize(s'.conversations, s.conversations);
  }

  lemma DeleteKeepsInv(json: JsonCheck, s: StoreState, id: string)
    requires StoreInv(json, s)
    ensures StoreInv(json, AfterDelete(s, id))
  {
    hide StoreInv;
    FewerKeepsInv(json, s, AfterDelete(s, id));
  }

  lemma DeleteAllKeepsInv(json: JsonCheck, s: StoreState)
    ensures StoreInv(json, AfterDeleteAll(s))
  {
  }

  lemma DeleteForUserKeepsInv(json: JsonCheck, s: StoreState, userId: int)
    requires StoreInv(json, s)
    ensures StoreInv(json, AfterDeleteForUser(s, userId))
  {
    hide StoreInv;
    FewerKeepsInv(json, s, AfterDeleteForUser(s, userId));
  }
}
