// ratelimit/memory.go: the key-counting protocol of the in-memory store. The shared state
// is the bucket map and the atomic key counter; every load, add, store or delete on them is
// one step of some thread, and threads interleave freely.
//
// Delete, one entry of cleanup's Range and one key of Reset's second loop run the same
// steps (find the entry, lock it, LoadAndDelete, decrement, unlock), so each is one removal
// here; cleanup may also leave after locking, when the entry turns out not to be stale.
module MemoryStore {
  import opened Basics

  type Key = string
  type Entry = nat  // identity of a bucketEntry

  datatype Thread =
    | Idle
    // AtomicUpdate
    | Reserving(key: Key)               // the load missed; about to add 1 to keyCount
    | Rejecting(key: Key)               // over the limit; about to take the 1 back
    | Storing(key: Key)                 // reservation approved; about to LoadOrStore
    | Yielding(key: Key, entry: Entry)  // somebody else stored first; about to take the 1 back
    | UpdateLocking(entry: Entry)
    | Updating(entry: Entry)            // holds the entry's mutex
    // Delete, cleanup, Reset
    | RemoveLocking(key: Key, entry: Entry)
    | Removing(key: Key, entry: Entry)    // holds the mutex; about to LoadAndDelete
    | Decrementing(key: Key, entry: Entry)  // deleted the key; about to subtract 1
    | RemoveUnlocking(entry: Entry)

  datatype Store = Store(
    buckets: map<Key, Entry>,
    keyCount: int,
    maxKeys: int,
    nextEntry: Entry,
    threads: map<nat, Thread>)

  datatype Action =
    | BeginUpdate(t: nat, key: Key)
    | BeginDelete(t: nat, key: Key)
    | BeginCleanup(t: nat, key: Key, entry: Entry)  // Range handed out this pair earlier
    | Advance(t: nat, stale: bool)

  function PC(s: Store, t: nat): Thread {
    if t in s.threads then s.threads[t] else Idle
  }

  predicate Holds(thread: Thread, entry: Entry) {
    match thread
    case Updating(e) => e == entry
    case Removing(_, e) => e == entry
    case Decrementing(_, e) => e == entry
    case RemoveUnlocking(e) => e == entry
    case _ => false
  }

  /** A sync.Mutex: nobody may hold the entry's lock. */
  predicate Unlocked(s: Store, entry: Entry) {
    forall t :: t in s.threads ==> !Holds(s.threads[t], entry)
  }

  function Goto(s: Store, t: nat, pc: Thread): Store {
    s.(threads := s.threads[t := pc])
  }

  function Apply(s: Store, a: Action): Store {
    match a
    case BeginUpdate(t, key) =>
      if PC(s, t) != Idle then s
      else if key in s.buckets then Goto(s, t, UpdateLocking(s.buckets[key]))
      else Goto(s, t, Reserving(key))
    case BeginDelete(t, key) =>
      if PC(s, t) != Idle || key !in s.buckets then s
      else Goto(s, t, RemoveLocking(key, s.buckets[key]))
    case BeginCleanup(t, key, entry) =>
      if PC(s, t) != Idle || entry >= s.nextEntry then s
      else Goto(s, t, RemoveLocking(key, entry))
    case Advance(t, stale) => Step(s, t, stale)
  }

  function Step(s: Store, t: nat, stale: bool): Store {
    match PC(s, t)
    case Idle => s
    case Reserving(key) =>
      var count := s.keyCount + 1;
      Goto(s, t, if count > s.maxKeys then Rejecting(key) else Storing(key)).(keyCount := count)
    case Rejecting(_) => Goto(s, t, Idle).(keyCount := s.keyCount - 1)
    case Storing(key) =>
      if key in s.buckets then Goto(s, t, Yielding(key, s.buckets[key]))
      else Goto(s, t, UpdateLocking(s.nextEntry))
           .(buckets := s.buckets[key := s.nextEntry], nextEntry := s.nextEntry + 1)
    case Yielding(_, entry) => Goto(s, t, UpdateLocking(entry)).(keyCount := s.keyCount - 1)
    case UpdateLocking(entry) => if Unlocked(s, entry) then Goto(s, t, Updating(entry)) else s
    case Updating(_) => Goto(s, t, Idle)
    case RemoveLocking(key, entry) =>
      if !Unlocked(s, entry) then s
      else Goto(s, t, if stale then Removing(key, entry) else RemoveUnlocking(entry))
    case Removing(key, entry) =>
      if key in s.buckets then Goto(s, t, Decrementing(key, entry)).(buckets := s.buckets - {key})
      else Goto(s, t, RemoveUnlocking(entry))
    case Decrementing(_, entry) => Goto(s, t, RemoveUnlocking(entry)).(keyCount := s.keyCount - 1)
    case RemoveUnlocking(_) => Goto(s, t, Idle)
  }

  function Run(s: Store, actions: seq<Action>): Store {
    if actions == [] then s else Apply(Run(s, actions[..|actions| - 1]), actions[|actions| - 1])
  }

  function Empty(maxKeys: int): Store {
    Store(map[], 0, maxKeys, 0, map[])
  }

  // ----- The counting invariant -----

  /** A 1 in keyCount that is not yet a key: reserved, and neither stored nor taken back. */
  predicate Reserved(thread: Thread) {
    thread.Rejecting? || thread.Storing? || thread.Yielding?
  }

  /** A key already gone from the map whose 1 is still in keyCount. */
  predicate Owed(thread: Thread) {
    thread.Decrementing?
  }

  predicate Approved(thread: Thread) {
    thread.Storing?
  }

  ghost predicate CountInv(s: Store) {
    s.keyCount == |s.buckets| + Tally(s.threads, Reserved) + Tally(s.threads, Owed)
  }

  ghost predicate LimitInv(s: Store) {
    |s.buckets| + Tally(s.threads, Approved) <= s.maxKeys
  }

  /** At most one thread is inside any entry's critical section. */
  ghost predicate LockInv(s: Store) {
    forall t, u, e ::
      (t in s.threads && u in s.threads && Holds(s.threads[t], e) && Holds(s.threads[u], e)) ==> t == u
  }

  ghost predicate Inv(s: Store) {
    CountInv(s) && LimitInv(s) && LockInv(s)
  }

  lemma GotoTallies(s: Store, t: nat, pc: Thread)
    ensures Tally(Goto(s, t, pc).threads, Reserved)
            == Tally(s.threads, Reserved) - (if Reserved(PC(s, t)) then 1 else 0) + (if Reserved(pc) then 1 else 0)
    ensures Tally(Goto(s, t, pc).threads, Owed)
            == Tally(s.threads, Owed) - (if Owed(PC(s, t)) then 1 else 0) + (if Owed(pc) then 1 else 0)
    ensures Tally(Goto(s, t, pc).threads, Approved)
            == Tally(s.threads, Approved) - (if Approved(PC(s, t)) then 1 else 0) + (if Approved(pc) then 1 else 0)
  {
    TallyUpdate(s.threads, t, pc, Reserved);
    TallyUpdate(s.threads, t, pc, Owed);
    TallyUpdate(s.threads, t, pc, Approved);
  }

  /** Approved reservations are reservations. */
  lemma ApprovedAreReserved(s: Store)
    ensures Tally(s.threads, Approved) <= Tally(s.threads, Reserved)
  {
    var approved, reserved := Where(s.threads, Approved), Where(s.threads, Reserved);
    assert approved <= reserved;
    SubsetCardinality(approved, reserved);
  }

  lemma SubsetCardinality<T>(a: set<T>, b: set<T>)
    requires a <= b
    ensures |a| <= |b|
  {
    assert b == a + (b - a);
  }

  /** Moving a thread between points outside the counted ones changes no tally. */
  lemma UncountedMove(s: Store, t: nat, pc: Thread)
    requires CountInv(s) && LimitInv(s)
    requires !Reserved(PC(s, t)) && !Owed(PC(s, t)) && !Reserved(pc) && !Owed(pc)
    ensures CountInv(Goto(s, t, pc)) && LimitInv(Goto(s, t, pc))
  {
    GotoTallies(s, t, pc);
  }

  lemma ReservationStep(s: Store, t: nat)
    requires CountInv(s) && LimitInv(s) && (Reserved(PC(s, t)) || PC(s, t).Reserving?)
    ensures CountInv(Step(s, t, true)) && LimitInv(Step(s, t, true))
  {
    var after := Step(s, t, true);
    GotoTallies(s, t, PC(after, t));
    ApprovedAreReserved(s);
    assert after.threads == Goto(s, t, PC(after, t)).threads;
  }

  lemma RemovalStep(s: Store, t: nat)
    requires CountInv(s) && LimitInv(s) && (Owed(PC(s, t)) || PC(s, t).Removing?)
    ensures CountInv(Step(s, t, true)) && LimitInv(Step(s, t, true))
  {
    var after := Step(s, t, true);
    GotoTallies(s, t, PC(after, t));
    if PC(after, t).Decrementing? {
      RemoveOne(s.buckets, PC(s, t).key);
    }
  }

  lemma AdvanceCounts(s: Store, t: nat, stale: bool)
    requires CountInv(s) && LimitInv(s)
    ensures CountInv(Step(s, t, stale)) && LimitInv(Step(s, t, stale))
  {
    match PC(s, t)
    case Idle =>
    case Reserving(_) => ReservationStep(s, t);
    case Rejecting(_) => ReservationStep(s, t);
    case Storing(_) => ReservationStep(s, t);
    case Yielding(_, _) => ReservationStep(s, t);
    case Removing(_, _) => RemovalStep(s, t);
    case Decrementing(_, _) => RemovalStep(s, t);
    case UpdateLocking(entry) => UncountedMove(s, t, Updating(entry));
    case Updating(_) => UncountedMove(s, t, Idle);
    case RemoveLocking(key, entry) =>
      UncountedMove(s, t, if stale then Removing(key, entry) else RemoveUnlocking(entry));
    case RemoveUnlocking(_) => UncountedMove(s, t, Idle);
  }

  lemma CountStep(s: Store, a: Action)
    requires CountInv(s) && LimitInv(s)
    ensures CountInv(Apply(s, a)) && LimitInv(Apply(s, a))
  {
    match a
    case Advance(t, stale) => AdvanceCounts(s, t, stale);
    case _ =>
      if Apply(s, a) != s {
        UncountedMove(s, a.t, PC(Apply(s, a), a.t));
      }
  }

  lemma LimitIsFixed(s: Store, a: Action)
    ensures Apply(s, a).maxKeys == s.maxKeys
  {
  }

  lemma RemoveOne<K, V>(m: map<K, V>, k: K)
    requires k in m
    ensures |m - {k}| == |m| - 1
  {
    assert (m - {k}).Keys == m.Keys - {k};
  }

  lemma LockStep(s: Store, a: Action)
    requires LockInv(s)
    ensures LockInv(Apply(s, a))
  {
  }

  /** keyCount is the map size plus reservations not yet stored or taken back plus removals not
      yet decremented; map size plus approved reservations never exceeds maxKeys; at most one
      thread is inside any entry. All of it in every interleaving. */
  lemma {:induction false} RunKeepsInv(maxKeys: int, actions: seq<Action>)
    requires maxKeys >= 0
    ensures Inv(Run(Empty(maxKeys), actions)) && Run(Empty(maxKeys), actions).maxKeys == maxKeys
  {
    var s := Run(Empty(maxKeys), actions);
    if actions == [] {
      TallyZero(s.threads, Reserved);
      TallyZero(s.threads, Owed);
      TallyZero(s.threads, Approved);
    } else {
      RunKeepsInv(maxKeys, actions[..|actions| - 1]);
      CountStep(Run(Empty(maxKeys), actions[..|actions| - 1]), actions[|actions| - 1]);
      LimitIsFixed(Run(Empty(maxKeys), actions[..|actions| - 1]), actions[|actions| - 1]);
      LockStep(Run(Empty(maxKeys), actions[..|actions| - 1]), actions[|actions| - 1]);
    }
  }

  /** Whenever every thread is idle the counter is exactly the number of keys, and within the
      limit: concurrent Delete, cleanup and Reset never decremented twice or not at all. */
  lemma QuiescentCountIsExact(maxKeys: int, actions: seq<Action>)
    requires maxKeys >= 0
    requires forall t :: t in Run(Empty(maxKeys), actions).threads ==> Run(Empty(maxKeys), actions).threads[t].Idle?
    ensures var s := Run(Empty(maxKeys), actions);
            s.keyCount == |s.buckets| <= maxKeys
  {
    var s := Run(Empty(maxKeys), actions);
    RunKeepsInv(maxKeys, actions);
    TallyZero(s.threads, Reserved);
    TallyZero(s.threads, Owed);
  }

  /** A new key is refused only when keys, reservations and unfinished removals fill the limit. */
  lemma RefusalMeansFull(maxKeys: int, actions: seq<Action>, t: nat)
    requires maxKeys >= 0
    requires PC(Run(Empty(maxKeys), actions), t).Reserving?
    ensures var s := Run(Empty(maxKeys), actions);
            PC(Apply(s, Advance(t, true)), t).Rejecting? <==>
            |s.buckets| + Tally(s.threads, Reserved) + Tally(s.threads, Owed) >= maxKeys
  {
    RunKeepsInv(maxKeys, actions);
  }

  // ----- Present keys -----

  /** t makes no further call. */
  predicate NoNewCall(actions: seq<Action>, t: nat) {
    forall i :: 0 <= i < |actions| && !actions[i].Advance? ==> actions[i].t != t
  }

  predicate OnItsWay(s: Store, t: nat, entry: Entry) {
    PC(s, t) in {UpdateLocking(entry), Updating(entry), Idle}
  }

  /** Whatever anybody does next, an update that waits for its entry waits on or holds it. */
  ghost predicate GivesUpNever(s: Store, t: nat, entry: Entry) {
    PC(s, t).UpdateLocking? ==>
      forall a: Action :: a.Advance? || a.t != t ==> PC(Apply(s, a), t) in {UpdateLocking(entry), Updating(entry)}
  }

  lemma WaitsOn(s: Store, t: nat, entry: Entry)
    requires OnItsWay(s, t, entry)
    ensures GivesUpNever(s, t, entry)
  {
    if PC(s, t).UpdateLocking? {
      forall a: Action | a.Advance? || a.t != t
        ensures PC(Apply(s, a), t) in {UpdateLocking(entry), Updating(entry)}
      {
        StepOfUpdate(s, a, t);
      }
    }
  }

  lemma {:induction false} StaysOnItsWay(s: Store, t: nat, entry: Entry, actions: seq<Action>)
    requires OnItsWay(s, t, entry) && NoNewCall(actions, t)
    ensures OnItsWay(Run(s, actions), t, entry)
  {
    if actions != [] {
      StaysOnItsWay(s, t, entry, actions[..|actions| - 1]);
      StepOfUpdate(Run(s, actions[..|actions| - 1]), actions[|actions| - 1], t);
    }
  }

  /** An update that finds its key is never refused, however full the store is and whatever the
      other threads do, a removal of the key included: it goes to lock the entry it found, leaves
      that only holding the entry, and is then done. */
  lemma PresentKeyIsNeverRefused(s: Store, t: nat, key: Key, actions: seq<Action>)
    requires PC(s, t) == Idle && key in s.buckets && NoNewCall(actions, t)
    ensures var entry, begun := s.buckets[key], Apply(s, BeginUpdate(t, key));
            && PC(begun, t) == UpdateLocking(entry)
            && OnItsWay(Run(begun, actions), t, entry)
            && GivesUpNever(Run(begun, actions), t, entry)
  {
    var entry, begun := s.buckets[key], Apply(s, BeginUpdate(t, key));
    StaysOnItsWay(begun, t, entry, actions);
    WaitsOn(Run(begun, actions), t, entry);
  }

  lemma StepOfUpdate(s: Store, a: Action, t: nat)
    requires PC(s, t).UpdateLocking? || PC(s, t).Updating? || PC(s, t).Idle?
    requires !a.Advance? ==> a.t != t
    ensures var after := PC(Apply(s, a), t);
            match PC(s, t)
            case UpdateLocking(entry) => after in {UpdateLocking(entry), Updating(entry)}
            case Updating(entry) => after in {Updating(entry), Idle}
            case _ => after == Idle
  {
  }

  /** No deadlock: in every reachable state in which some call is under way, some thread can move. */
  lemma SomebodyCanMove(maxKeys: int, actions: seq<Action>, t: nat) returns (u: nat)
    requires PC(Run(Empty(maxKeys), actions), t) != Idle
    ensures var s := Run(Empty(maxKeys), actions);
            Apply(s, Advance(u, true)) != s
  {
    var s := Run(Empty(maxKeys), actions);
    u := t;
    if s.threads[t].UpdateLocking? || s.threads[t].RemoveLocking? {
      var entry := s.threads[t].entry;
      if !Unlocked(s, entry) {
        u :| u in s.threads && Holds(s.threads[u], entry);
      }
    }
    MovesOn(s, u);
  }

  lemma MovesOn(s: Store, t: nat)
    requires t in s.threads && s.threads[t] != Idle
    requires s.threads[t].UpdateLocking? || s.threads[t].RemoveLocking? ==> Unlocked(s, s.threads[t].entry)
    ensures PC(Step(s, t, true), t) != PC(s, t)
  {
  }
}
