/**
 The lock a worker takes on an extent before it scans it: a NamedPtr maps the extent's address to a
 shared Exclusion, and the Exclusion has at most one owner (include/crucible/namedptr.h,
 include/crucible/lockset.h, Exclusion in lib/task.cc).  Each region that holds a mutex is one step.
 */
module NamedLocks {

  import opened Common

  type Key = nat
  type Thread = nat

  /** A Value and the Exclusion it holds.  `owner` is the Exclusion's weak pointer to its owner. */
  datatype Value = Value(key: Key, owner: Option<nat>)

  /**
   Where a thread is.  A handle is a strong pointer, named by a number.

   - Wanting: the first lookup failed, waiting for the key lock
   - Checking: has the key lock, about to look again
   - Calling: looked again in vain, now calls the function that makes the object
   - Created: made a Value that is not in the map yet
   - Found: has the object, about to release the key lock
   - Holding: insert_item has returned the object
   - Deferring: the Exclusion has an owner, which is being told to run this task after it
   - Scanning: owns the Exclusion
   */
  datatype Pc =
    | Idle
    | Wanting(key: Key)
    | Checking(key: Key)
    | Calling(key: Key)
    | Created(key: Key, handle: nat)
    | Found(key: Key, handle: nat)
    | Holding(key: Key, handle: nat)
    | Deferring(key: Key, handle: nat, owner: nat)
    | Scanning(key: Key, handle: nat, owner: nat)

  /** `names` is m_map, whose entries are weak pointers; `refs` are the strong pointers that exist;
      `locks` is the LockSet; `next` is a number never used before. */
  datatype State = State(names: map<Key, nat>, values: map<nat, Value>, refs: map<nat, nat>,
                         locks: map<Key, Thread>, pcs: map<Thread, Pc>, next: nat)

  const INIT := State(map[], map[], map[], map[], map[], 0)

  datatype Action =
    | Start(t: Thread)
    | Lookup(t: Thread, key: Key)
    | LockKey(t: Thread)
    | LookAgain(t: Thread)
    | Create(t: Thread)
    | Fail(t: Thread, made: bool)
    | Insert(t: Thread)
    | UnlockKey(t: Thread)
    | TryLock(t: Thread)
    | Defer(t: Thread)
    | Release(t: Thread)
    | Drop(t: Thread)
    | Copy(handle: nat)
    | DropCopy(handle: nat)
    | Destroy(value: nat)

  /** weak_ptr::expired is false: some strong pointer exists. */
  predicate Live(s: State, v: nat) {
    exists h :: h in s.refs && s.refs[h] == v
  }

  predicate LiveAt(s: State, k: Key) {
    k in s.names && Live(s, s.names[k])
  }

  /** The owner's shared pointer is kept by the thread that scans and by those being deferred to it. */
  predicate OwnerLive(s: State, o: nat) {
    exists t :: t in s.pcs && (s.pcs[t].Scanning? || s.pcs[t].Deferring?) && s.pcs[t].owner == o
  }

  predicate HasHandle(p: Pc) {
    p.Created? || p.Found? || p.Holding? || p.Deferring? || p.Scanning?
  }

  predicate LocksKey(p: Pc, k: Key) {
    (p.Checking? || p.Calling? || p.Created? || p.Found?) && p.key == k
  }

  predicate Enabled(s: State, a: Action) {
    match a
    case Start(t) => t !in s.pcs
    case Lookup(t, _) => t in s.pcs && s.pcs[t].Idle?
    case LockKey(t) => t in s.pcs && s.pcs[t].Wanting? && s.pcs[t].key !in s.locks
    case LookAgain(t) => t in s.pcs && s.pcs[t].Checking?
    case Create(t) => t in s.pcs && s.pcs[t].Calling?
    case Fail(t, _) => t in s.pcs && s.pcs[t].Calling?
    case Insert(t) => t in s.pcs && s.pcs[t].Created? && s.pcs[t].handle in s.refs
    case UnlockKey(t) => t in s.pcs && s.pcs[t].Found?
    case TryLock(t) => t in s.pcs && s.pcs[t].Holding? && s.pcs[t].handle in s.refs && s.refs[s.pcs[t].handle] in s.values
    case Defer(t) => t in s.pcs && s.pcs[t].Deferring?
    case Release(t) => t in s.pcs && s.pcs[t].Scanning?
    case Drop(t) => t in s.pcs && s.pcs[t].Holding?
    case Copy(h) => h in s.refs && (forall t :: t in s.pcs && s.pcs[t].Created? ==> s.pcs[t].handle != h)
    case DropCopy(h) => h in s.refs && (forall t :: t in s.pcs && HasHandle(s.pcs[t]) ==> s.pcs[t].handle != h)
    case Destroy(v) => v in s.values && !Live(s, v)
  }

  function SetPc(s: State, t: Thread, p: Pc): State {
    s.(pcs := s.pcs[t := p])
  }

  /** A new strong pointer to v. */
  function NewRef(s: State, v: nat): State {
    s.(refs := s.refs[s.next := v], next := s.next + 1)
  }

  function Step(s: State, a: Action): State
    requires Enabled(s, a)
  {
    match a
    case Start(t) => SetPc(s, t, Idle)
    case Lookup(t, k) =>
      if LiveAt(s, k) then SetPc(NewRef(s, s.names[k]), t, Holding(k, s.next)) else SetPc(s, t, Wanting(k))
    case LockKey(t) =>
      var k := s.pcs[t].key;
      SetPc(s, t, Checking(k)).(locks := s.locks[k := t])
    case LookAgain(t) =>
      var k := s.pcs[t].key;
      if LiveAt(s, k) then SetPc(NewRef(s, s.names[k]), t, Found(k, s.next)) else SetPc(s, t, Calling(k))
    case Create(t) =>
      var k := s.pcs[t].key;
      SetPc(NewRef(s, s.next), t, Created(k, s.next)).(values := s.values[s.next := Value(k, None)])
    case Fail(t, made) =>
      // The function threw, or it returned a null pointer and the Value made for it is dropped.
      var k := s.pcs[t].key;
      var s1 := if made then s.(values := s.values[s.next := Value(k, None)], next := s.next + 1) else s;
      SetPc(s1, t, Idle).(locks := s.locks - {k})
    case Insert(t) =>
      var p := s.pcs[t];
      SetPc(s, t, Found(p.key, p.handle)).(names := s.names[p.key := s.refs[p.handle]])
    case UnlockKey(t) =>
      var p := s.pcs[t];
      SetPc(s, t, Holding(p.key, p.handle)).(locks := s.locks - {p.key})
    case TryLock(t) =>
      var p := s.pcs[t];
      var v := s.refs[p.handle];
      var owner := s.values[v].owner;
      if owner.Some? && OwnerLive(s, owner.value) then SetPc(s, t, Deferring(p.key, p.handle, owner.value))
      else SetPc(s, t, Scanning(p.key, p.handle, s.next)).(values := s.values[v := s.values[v].(owner := Some(s.next))], next := s.next + 1)
    case Defer(t) => SetPc(s, t, Idle).(refs := s.refs - {s.pcs[t].handle})
    case Release(t) => SetPc(s, t, Holding(s.pcs[t].key, s.pcs[t].handle))
    case Drop(t) => SetPc(s, t, Idle).(refs := s.refs - {s.pcs[t].handle})
    case Copy(h) => NewRef(s, s.refs[h])
    case DropCopy(h) => s.(refs := s.refs - {h})
    case Destroy(v) =>
      var k := s.values[v].key;
      var names := if k in s.names && !Live(s, s.names[k]) then s.names - {k} else s.names;
      s.(values := s.values - {v}, names := names)
  }

  // ----- The invariant

  ghost predicate IdsOk(s: State) {
    && (forall h :: h in s.refs ==> h < s.next && s.refs[h] in s.values)
    && (forall v :: v in s.values ==> v < s.next)
    && (forall k :: k in s.names ==> s.names[k] in s.values && s.values[s.names[k]].key == k)
    && (forall t :: t in s.pcs && (s.pcs[t].Scanning? || s.pcs[t].Deferring?) ==> s.pcs[t].owner < s.next)
  }

  /** A thread's handle is its own and points to a Value with the key it asked for. */
  ghost predicate HandlesOk(s: State) {
    && (forall t :: t in s.pcs && HasHandle(s.pcs[t]) ==>
          && s.pcs[t].handle in s.refs && s.refs[s.pcs[t].handle] in s.values
          && s.values[s.refs[s.pcs[t].handle]].key == s.pcs[t].key)
    && (forall t, u :: t in s.pcs && u in s.pcs && HasHandle(s.pcs[t]) && HasHandle(s.pcs[u]) && s.pcs[t].handle == s.pcs[u].handle ==> t == u)
  }

  ghost predicate LocksOk(s: State) {
    && (forall t, k :: t in s.pcs && LocksKey(s.pcs[t], k) ==> k in s.locks && s.locks[k] == t)
    && (forall k :: k in s.locks ==> s.locks[k] in s.pcs && LocksKey(s.pcs[s.locks[k]], k))
  }

  /** A live Value is the one the map names, or a thread is about to put it there. */
  ghost predicate Placed(s: State, v: nat)
    requires v in s.values
  {
    var k := s.values[v].key;
    || (k in s.names && s.names[k] == v)
    || (exists t :: t in s.pcs && s.pcs[t].Created? && s.pcs[t].handle in s.refs && s.refs[s.pcs[t].handle] == v)
  }

  ghost predicate PlacesOk(s: State) {
    && (forall v :: v in s.values && Live(s, v) ==> Placed(s, v))
    && (forall t :: t in s.pcs && (s.pcs[t].Calling? || s.pcs[t].Created?) ==> !LiveAt(s, s.pcs[t].key))
  }

  /** A thread that scans, or is being deferred to the one that scans. */
  predicate HasOwner(p: Pc) {
    p.Scanning? || p.Deferring?
  }

  /** No two Exclusions have the same owner. */
  ghost predicate OwnersDiffer(s: State) {
    && (forall v :: v in s.values && s.values[v].owner.Some? ==> s.values[v].owner.value < s.next)
    && (forall v, w :: v in s.values && w in s.values && s.values[v].owner.Some? && s.values[v].owner == s.values[w].owner ==> v == w)
  }

  /** The Exclusion knows its owner, and each owner is one scan. */
  ghost predicate OwnersKnown(s: State) {
    && (forall t :: t in s.pcs && HasOwner(s.pcs[t]) && s.pcs[t].handle in s.refs && s.refs[s.pcs[t].handle] in s.values ==>
          s.values[s.refs[s.pcs[t].handle]].owner == Some(s.pcs[t].owner))
    && (forall t, u :: t in s.pcs && u in s.pcs && s.pcs[t].Scanning? && s.pcs[u].Scanning? && s.pcs[t].owner == s.pcs[u].owner ==> t == u)
  }

  ghost predicate OwnersOk(s: State) {
    OwnersDiffer(s) && OwnersKnown(s)
  }

  ghost predicate Inv(s: State) {
    IdsOk(s) && HandlesOk(s) && LocksOk(s) && PlacesOk(s) && OwnersOk(s)
  }

  // ----- Every step keeps it

  predicate TakesRef(a: Action) {
    a.Lookup? || a.LookAgain? || a.Create? || a.Copy?
  }

  predicate DropsRef(a: Action) {
    a.Defer? || a.Drop? || a.DropCopy?
  }

  lemma TakeKeepsIds(s: State, a: Action)
    requires IdsOk(s) && Enabled(s, a) && TakesRef(a)
    ensures IdsOk(Step(s, a))
  {
  }

  lemma StepIds(s: State, a: Action)
    requires IdsOk(s) && HandlesOk(s) && Enabled(s, a)
    ensures IdsOk(Step(s, a))
  {
    if TakesRef(a) { TakeKeepsIds(s, a); }
  }

  lemma CreateKeepsHandles(s: State, t: Thread)
    requires IdsOk(s) && HandlesOk(s) && Enabled(s, Create(t))
    ensures HandlesOk(Step(s, Create(t)))
  {
  }

  lemma TakeKeepsHandles(s: State, a: Action)
    requires IdsOk(s) && HandlesOk(s) && Enabled(s, a) && TakesRef(a) && !a.Create?
    ensures HandlesOk(Step(s, a))
  {
  }

  lemma DropKeepsHandles(s: State, a: Action)
    requires IdsOk(s) && HandlesOk(s) && Enabled(s, a) && DropsRef(a)
    ensures HandlesOk(Step(s, a))
  {
  }

  lemma StepHandles(s: State, a: Action)
    requires IdsOk(s) && HandlesOk(s) && Enabled(s, a)
    ensures HandlesOk(Step(s, a))
  {
    if a.Create? {
      CreateKeepsHandles(s, a.t);
    } else if TakesRef(a) {
      TakeKeepsHandles(s, a);
    } else if DropsRef(a) {
      DropKeepsHandles(s, a);
    }
  }

  lemma LockKeepsLocks(s: State, a: Action)
    requires LocksOk(s) && Enabled(s, a) && (a.LockKey? || a.UnlockKey? || a.Fail?)
    ensures LocksOk(Step(s, a))
  {
    var s' := Step(s, a);
    assert !a.LockKey? ==> LocksKey(s.pcs[a.t], s.pcs[a.t].key) && s.locks[s.pcs[a.t].key] == a.t;
    forall u, k | u in s'.pcs && LocksKey(s'.pcs[u], k) ensures k in s'.locks && s'.locks[k] == u {
      if u != a.t { assert LocksKey(s.pcs[u], k) && s.locks[k] == u; }
    }
    forall k | k in s'.locks ensures s'.locks[k] in s'.pcs && LocksKey(s'.pcs[s'.locks[k]], k) {
      if s'.locks[k] != a.t { assert LocksKey(s.pcs[s.locks[k]], k); }
    }
  }

  lemma StepLocks(s: State, a: Action)
    requires LocksOk(s) && Enabled(s, a)
    ensures LocksOk(Step(s, a))
  {
    if a.LockKey? || a.UnlockKey? || a.Fail? {
      LockKeepsLocks(s, a);
    } else if TakesRef(a) {
      TakeKeepsLocks(s, a);
    }
  }

  lemma TakeKeepsLocks(s: State, a: Action)
    requires LocksOk(s) && Enabled(s, a) && TakesRef(a)
    ensures LocksOk(Step(s, a))
  {
  }

  // ----- Where live Values are

  ghost predicate Located(s: State) {
    IdsOk(s) && HandlesOk(s) && LocksOk(s) && PlacesOk(s)
  }

  /** One more pointer to a Value that has one already changes nothing. */
  lemma ShareKeepsLive(s: State, s': State, v: nat)
    requires Live(s, v) && s.next !in s.refs && s'.refs == s.refs[s.next := v]
    ensures forall x :: Live(s', x) <==> Live(s, x)
  {
    forall x | Live(s, x) ensures Live(s', x) {
      var h :| h in s.refs && s.refs[h] == x;
      assert h in s'.refs && s'.refs[h] == x;
    }
  }

  lemma SameRefsKeepLive(s: State, s': State)
    requires s'.refs == s.refs
    ensures forall x :: Live(s', x) <==> Live(s, x)
  {
  }

  /** What is live and placed stays placed if nothing new is live, the map is as it was,
      and threads keep what they created. */
  lemma KeepsPlaces(s: State, s': State)
    requires PlacesOk(s) && s'.names == s.names
    requires forall v :: v in s'.values ==> if v in s.values then s'.values[v].key == s.values[v].key else !Live(s', v)
    requires forall x :: Live(s', x) ==> Live(s, x)
    requires forall t :: t in s.pcs && s.pcs[t].Created? ==> t in s'.pcs && s'.pcs[t] == s.pcs[t]
    requires forall h :: h in s'.refs && h in s.refs ==> s'.refs[h] == s.refs[h]
    requires forall t :: t in s.pcs && s.pcs[t].Created? ==> s.pcs[t].handle in s'.refs
    requires forall t :: t in s'.pcs && (s'.pcs[t].Calling? || s'.pcs[t].Created?) ==> !LiveAt(s, s'.pcs[t].key)
    ensures PlacesOk(s')
  {
    forall v | v in s'.values && Live(s', v) ensures Placed(s', v) {
      assert Placed(s, v);
      if !(s.values[v].key in s.names && s.names[s.values[v].key] == v) {
        var t :| t in s.pcs && s.pcs[t].Created? && s.pcs[t].handle in s.refs && s.refs[s.pcs[t].handle] == v;
        assert s'.pcs[t].Created? && s'.refs[s'.pcs[t].handle] == v;
      }
    }
  }

  lemma TakeKeepsPlaces(s: State, a: Action)
    requires Located(s) && Enabled(s, a) && TakesRef(a) && !a.Create?
    ensures PlacesOk(Step(s, a))
  {
    var s' := Step(s, a);
    if s'.refs == s.refs {
      SameRefsKeepLive(s, s');
    } else {
      ShareKeepsLive(s, s', s'.refs[s.next]);
    }
    TakeShape(s, s', a);
    KeepsPlaces(s, s');
  }

  lemma TakeShape(s: State, s': State, a: Action)
    requires Enabled(s, a) && TakesRef(a) && !a.Create? && s' == Step(s, a)
    ensures s'.names == s.names && s'.values == s.values
    ensures forall t :: t in s.pcs && s.pcs[t].Created? ==> t in s'.pcs && s'.pcs[t] == s.pcs[t]
    ensures forall t :: t in s'.pcs && (s'.pcs[t].Calling? || s'.pcs[t].Created?) ==>
              (t in s.pcs && s.pcs[t] == s'.pcs[t]) || !LiveAt(s, s'.pcs[t].key)
  {
  }

  lemma CreateKeepsPlaces(s: State, t: Thread)
    requires Located(s) && Enabled(s, Create(t))
    ensures PlacesOk(Step(s, Create(t)))
  {
    var s' := Step(s, Create(t));
    assert s'.pcs[t].Created? && s'.refs[s'.pcs[t].handle] == s.next;
    forall x | x != s.next && Live(s', x) ensures Live(s, x) {
      var h :| h in s'.refs && s'.refs[h] == x;
      assert h in s.refs;
    }
    forall v | v in s'.values && Live(s', v) ensures Placed(s', v) {
      if v != s.next {
        assert Placed(s, v);
        if !(s.values[v].key in s.names && s.names[s.values[v].key] == v) {
          var u :| u in s.pcs && s.pcs[u].Created? && s.pcs[u].handle in s.refs && s.refs[s.pcs[u].handle] == v;
          assert s'.pcs[u].Created? && s'.refs[s'.pcs[u].handle] == v;
        }
      }
    }
  }

  lemma DropKeepsPlaces(s: State, a: Action)
    requires Located(s) && Enabled(s, a) && DropsRef(a)
    ensures PlacesOk(Step(s, a))
  {
    var s' := Step(s, a);
    forall x | Live(s', x) ensures Live(s, x) {
      var h :| h in s'.refs && s'.refs[h] == x;
      assert h in s.refs && s.refs[h] == x;
    }
    KeepsPlaces(s, s');
  }

  /** The assert in insert_item: the slot is empty or expired. */
  lemma SlotIsExpired(s: State, t: Thread)
    requires Inv(s) && Enabled(s, Insert(t))
    ensures s.pcs[t].key !in s.names || !Live(s, s.names[s.pcs[t].key])
  {
    assert !LiveAt(s, s.pcs[t].key);
  }

  lemma OneCreator(s: State, t: Thread, u: Thread)
    requires LocksOk(s) && t in s.pcs && u in s.pcs && s.pcs[t].Created?
    requires (s.pcs[u].Calling? || s.pcs[u].Created?) && s.pcs[u].key == s.pcs[t].key
    ensures t == u
  {
    var k := s.pcs[t].key;
    assert LocksKey(s.pcs[t], k) && s.locks[k] == t;
    assert LocksKey(s.pcs[u], k) && s.locks[k] == u;
  }

  lemma InsertKeepsPlaces(s: State, t: Thread)
    requires Located(s) && Enabled(s, Insert(t))
    ensures PlacesOk(Step(s, Insert(t)))
  {
    var s', k := Step(s, Insert(t)), s.pcs[t].key;
    SameRefsKeepLive(s, s');
    assert !LiveAt(s, k);
    forall v | v in s'.values && Live(s', v) ensures Placed(s', v) {
      assert Placed(s, v);
      if s.values[v].key != k && s.values[v].key in s.names && s.names[s.values[v].key] == v {
        assert s'.names[s.values[v].key] == v;
      } else {
        var u :| u in s.pcs && s.pcs[u].Created? && s.pcs[u].handle in s.refs && s.refs[s.pcs[u].handle] == v;
        if s.pcs[u].key == k {
          OneCreator(s, t, u);
        } else {
          assert s'.pcs[u] == s.pcs[u];
        }
      }
    }
    forall u | u in s'.pcs && (s'.pcs[u].Calling? || s'.pcs[u].Created?) ensures !LiveAt(s', s'.pcs[u].key) {
      assert u != t && s'.pcs[u] == s.pcs[u] && !LiveAt(s, s.pcs[u].key);
      if s.pcs[u].key == k { OneCreator(s, t, u); }
    }
  }

  lemma DestroyKeepsPlaces(s: State, v: nat)
    requires Located(s) && Enabled(s, Destroy(v))
    ensures PlacesOk(Step(s, Destroy(v)))
  {
    var s' := Step(s, Destroy(v));
    SameRefsKeepLive(s, s');
    forall x | x in s'.values && Live(s', x) ensures Placed(s', x) {
      assert Placed(s, x);
      if !(s.values[x].key in s.names && s.names[s.values[x].key] == x) {
        var u :| u in s.pcs && s.pcs[u].Created? && s.pcs[u].handle in s.refs && s.refs[s.pcs[u].handle] == x;
        assert s'.pcs[u] == s.pcs[u];
      }
    }
    forall u | u in s'.pcs && (s'.pcs[u].Calling? || s'.pcs[u].Created?) ensures !LiveAt(s', s'.pcs[u].key) {
      assert !LiveAt(s, s.pcs[u].key);
    }
  }

  lemma StepPlaces(s: State, a: Action)
    requires Located(s) && Enabled(s, a)
    ensures PlacesOk(Step(s, a))
  {
    if a.Create? {
      CreateKeepsPlaces(s, a.t);
    } else if TakesRef(a) {
      TakeKeepsPlaces(s, a);
    } else if DropsRef(a) {
      DropKeepsPlaces(s, a);
    } else if a.Insert? {
      InsertKeepsPlaces(s, a.t);
    } else if a.Destroy? {
      DestroyKeepsPlaces(s, a.value);
    } else {
      OtherKeepsPlaces(s, a);
    }
  }

  /** The remaining steps move no pointer; only Fail adds a Value, with nothing pointing to it. */
  lemma OtherShape(s: State, s': State, a: Action)
    requires IdsOk(s) && Enabled(s, a) && !TakesRef(a) && !DropsRef(a) && !a.Insert? && !a.Destroy? && s' == Step(s, a)
    ensures s'.refs == s.refs && s'.names == s.names
    ensures forall v :: v in s'.values ==> if v in s.values then s'.values[v].key == s.values[v].key else v == s.next
    ensures forall t :: t in s.pcs && s.pcs[t].Created? ==> t in s'.pcs && s'.pcs[t] == s.pcs[t]
    ensures forall t :: t in s'.pcs && (s'.pcs[t].Calling? || s'.pcs[t].Created?) ==> t in s.pcs && s.pcs[t] == s'.pcs[t]
  {
  }

  lemma OtherKeepsPlaces(s: State, a: Action)
    requires Located(s) && Enabled(s, a) && !TakesRef(a) && !DropsRef(a) && !a.Insert? && !a.Destroy?
    ensures PlacesOk(Step(s, a))
  {
    var s' := Step(s, a);
    OtherShape(s, s', a);
    OtherPlaces(s, s');
  }

  lemma OtherPlaces(s: State, s': State)
    requires Located(s) && s'.refs == s.refs && s'.names == s.names
    requires forall v :: v in s'.values ==> if v in s.values then s'.values[v].key == s.values[v].key else v == s.next
    requires forall t :: t in s.pcs && s.pcs[t].Created? ==> t in s'.pcs && s'.pcs[t] == s.pcs[t]
    requires forall t :: t in s'.pcs && (s'.pcs[t].Calling? || s'.pcs[t].Created?) ==> t in s.pcs && s.pcs[t] == s'.pcs[t]
    ensures PlacesOk(s')
  {
    SameRefsKeepLive(s, s');
    KeepsPlaces(s, s');
  }

  // ----- Who owns an Exclusion

  /** What the thread's strong pointer leads to. */
  function ValueOf(s: State, t: Thread): Option<nat> {
    if t in s.pcs && HasHandle(s.pcs[t]) && s.pcs[t].handle in s.refs then Some(s.refs[s.pcs[t].handle]) else None
  }

  /** Some thread scans what v is the lock of, or is being deferred to one that did. */
  predicate Taken(s: State, v: nat) {
    exists u :: u in s.pcs && HasOwner(s.pcs[u]) && ValueOf(s, u) == Some(v)
  }

  /** The owner of an Exclusion is alive if and only if it is taken. */
  lemma OwnerLiveIff(s: State, v: nat)
    requires HandlesOk(s) && OwnersOk(s) && v in s.values
    ensures (s.values[v].owner.Some? && OwnerLive(s, s.values[v].owner.value)) <==> Taken(s, v)
  {
    if s.values[v].owner.Some? && OwnerLive(s, s.values[v].owner.value) {
      var u :| u in s.pcs && (s.pcs[u].Scanning? || s.pcs[u].Deferring?) && s.pcs[u].owner == s.values[v].owner.value;
      assert HasHandle(s.pcs[u]) && HasOwner(s.pcs[u]) && ValueOf(s, u) == Some(v);
    }
    if Taken(s, v) {
      var u :| u in s.pcs && HasOwner(s.pcs[u]) && ValueOf(s, u) == Some(v);
      assert s.values[v].owner == Some(s.pcs[u].owner);
    }
  }

  /** A lock is given only when no one who scans the same Value is left. */
  lemma TryLockKeepsOwners(s: State, t: Thread)
    requires IdsOk(s) && HandlesOk(s) && OwnersOk(s) && Enabled(s, TryLock(t))
    ensures OwnersOk(Step(s, TryLock(t)))
  {
    var s', v := Step(s, TryLock(t)), s.refs[s.pcs[t].handle];
    OwnerLiveIff(s, v);
    if s'.pcs[t].Scanning? {
      forall u | u in s.pcs && HasOwner(s.pcs[u]) ensures s.refs[s.pcs[u].handle] != v {
        assert s.refs[s.pcs[u].handle] == v ==> ValueOf(s, u) == Some(v);
      }
    }
  }

  /** The other steps change no owner; a new Value has none. */
  lemma ValuesShape(s: State, a: Action, s': State)
    requires Enabled(s, a) && !a.TryLock? && s' == Step(s, a)
    ensures s'.next >= s.next
    ensures forall v :: v in s'.values ==> (v in s.values && s'.values[v] == s.values[v]) || (v == s.next && s'.values[v].owner == None)
  {
  }

  lemma OtherKeepsDiffer(s: State, a: Action)
    requires OwnersDiffer(s) && Enabled(s, a) && !a.TryLock?
    ensures OwnersDiffer(Step(s, a))
  {
    ValuesShape(s, a, Step(s, a));
  }

  lemma RefsShape(s: State, a: Action, s': State)
    requires Enabled(s, a) && s' == Step(s, a)
    ensures forall h :: h in s'.refs ==> (h in s.refs && s'.refs[h] == s.refs[h]) || h == s.next
  {
  }

  /** A thread that has an owner after another step had it before. */
  lemma OwnerBefore(s: State, a: Action, s': State, t: Thread)
    requires Enabled(s, a) && !a.TryLock? && s' == Step(s, a) && t in s'.pcs && HasOwner(s'.pcs[t])
    ensures t in s.pcs && s.pcs[t] == s'.pcs[t]
  {
  }

  lemma OtherKeepsKnown(s: State, a: Action)
    requires IdsOk(s) && HandlesOk(s) && OwnersKnown(s) && Enabled(s, a) && !a.TryLock?
    ensures OwnersKnown(Step(s, a))
  {
    var s' := Step(s, a);
    RefsShape(s, a, s');
    forall t | t in s'.pcs && HasOwner(s'.pcs[t])
      ensures t in s.pcs && s.pcs[t] == s'.pcs[t] && s.pcs[t].handle in s.refs
      ensures s'.pcs[t].handle in s'.refs ==> s'.refs[s'.pcs[t].handle] == s.refs[s.pcs[t].handle]
    {
      OwnerBefore(s, a, s', t);
      assert s.pcs[t].handle < s.next;
    }
    ValuesShape(s, a, s');
    KnownStays(s, s');
  }

  lemma KnownStays(s: State, s': State)
    requires IdsOk(s) && OwnersKnown(s)
    requires forall t :: t in s'.pcs && HasOwner(s'.pcs[t]) ==>
               && t in s.pcs && s.pcs[t] == s'.pcs[t] && s.pcs[t].handle in s.refs
               && (s'.pcs[t].handle in s'.refs ==> s'.refs[s'.pcs[t].handle] == s.refs[s.pcs[t].handle])
    requires forall v :: v in s'.values ==> (v in s.values && s'.values[v] == s.values[v]) || v == s.next
    ensures OwnersKnown(s')
  {
    forall t | t in s'.pcs && HasOwner(s'.pcs[t]) && s'.pcs[t].handle in s'.refs && s'.refs[s'.pcs[t].handle] in s'.values
      ensures s'.values[s'.refs[s'.pcs[t].handle]].owner == Some(s'.pcs[t].owner)
    {
      assert s.refs[s.pcs[t].handle] < s.next;
    }
  }

  lemma StepOwners(s: State, a: Action)
    requires IdsOk(s) && HandlesOk(s) && OwnersOk(s) && Enabled(s, a)
    ensures OwnersOk(Step(s, a))
  {
    if a.TryLock? {
      TryLockKeepsOwners(s, a.t);
    } else {
      OtherKeepsDiffer(s, a);
      OtherKeepsKnown(s, a);
    }
  }

  // ----- Main results

  lemma StepKeepsInv(s: State, a: Action)
    requires Inv(s) && Enabled(s, a)
    ensures Inv(Step(s, a))
  {
    StepIds(s, a);
    StepHandles(s, a);
    StepLocks(s, a);
    StepPlaces(s, a);
    StepOwners(s, a);
  }

  /** One interleaving of all threads. */
  predicate ValidRun(s: State, acts: seq<Action>)
    decreases |acts|
  {
    acts == [] || (Enabled(s, acts[0]) && ValidRun(Step(s, acts[0]), acts[1..]))
  }

  function After(s: State, acts: seq<Action>): State
    requires ValidRun(s, acts)
    decreases |acts|
  {
    if acts == [] then s else After(Step(s, acts[0]), acts[1..])
  }

  lemma {:induction false} RunKeepsInv(s: State, acts: seq<Action>)
    requires Inv(s) && ValidRun(s, acts)
    ensures Inv(After(s, acts))
    decreases |acts|
  {
    if acts != [] {
      StepKeepsInv(s, acts[0]);
      RunKeepsInv(Step(s, acts[0]), acts[1..]);
    }
  }

  /** In every interleaving there is at most one live object per name. */
  lemma OneObjectPerName(acts: seq<Action>, v: nat, w: nat)
    requires ValidRun(INIT, acts)
    ensures var s := After(INIT, acts);
            v in s.values && w in s.values && Live(s, v) && Live(s, w) && s.values[v].key == s.values[w].key ==> v == w
  {
    RunKeepsInv(INIT, acts);
    var s := After(INIT, acts);
    if v in s.values && w in s.values && Live(s, v) && Live(s, w) && s.values[v].key == s.values[w].key {
      LiveIsUnique(s, v, w);
    }
  }

  lemma LiveIsUnique(s: State, v: nat, w: nat)
    requires Inv(s) && v in s.values && w in s.values && Live(s, v) && Live(s, w) && s.values[v].key == s.values[w].key
    ensures v == w
  {
    var k := s.values[v].key;
    assert Placed(s, v) && Placed(s, w);
    if k in s.names && s.names[k] == v {
      assert LiveAt(s, k);
    } else {
      var t :| t in s.pcs && s.pcs[t].Created? && s.pcs[t].handle in s.refs && s.refs[s.pcs[t].handle] == v;
      assert !LiveAt(s, k);
      var u :| u in s.pcs && s.pcs[u].Created? && s.pcs[u].handle in s.refs && s.refs[s.pcs[u].handle] == w;
      OneCreator(s, t, u);
    }
  }

  /** No two threads are ever inside the scan of the same extent. */
  lemma MutualExclusion(acts: seq<Action>, t: Thread, u: Thread)
    requires ValidRun(INIT, acts)
    ensures var s := After(INIT, acts);
            t in s.pcs && u in s.pcs && s.pcs[t].Scanning? && s.pcs[u].Scanning? && s.pcs[t].key == s.pcs[u].key ==> t == u
  {
    RunKeepsInv(INIT, acts);
    var s := After(INIT, acts);
    if t in s.pcs && u in s.pcs && s.pcs[t].Scanning? && s.pcs[u].Scanning? && s.pcs[t].key == s.pcs[u].key {
      assert Live(s, s.refs[s.pcs[t].handle]) && Live(s, s.refs[s.pcs[u].handle]);
      LiveIsUnique(s, s.refs[s.pcs[t].handle], s.refs[s.pcs[u].handle]);
    }
  }

  /** insert_item's assert holds in every interleaving. */
  lemma AssertNeverFails(acts: seq<Action>, t: Thread)
    requires ValidRun(INIT, acts) && Enabled(After(INIT, acts), Insert(t))
    ensures !LiveAt(After(INIT, acts), After(INIT, acts).pcs[t].key)
  {
    RunKeepsInv(INIT, acts);
    assert PlacesOk(After(INIT, acts));
  }

  lemma NamesShape(s: State, a: Action)
    requires Enabled(s, a) && !a.Insert? && !a.Destroy?
    ensures Step(s, a).names == s.names
  {
  }

  /** A name keeps its object for as long as the object lives: no other thread's insertion and no dead
      Value's destructor takes the entry away. */
  lemma LiveNameIsKept(s: State, a: Action, k: Key)
    requires PlacesOk(s) && Enabled(s, a) && LiveAt(s, k)
    ensures Live(Step(s, a), s.names[k]) ==> k in Step(s, a).names && Step(s, a).names[k] == s.names[k]
  {
    if a.Insert? {
      assert !LiveAt(s, s.pcs[a.t].key);
    } else if !a.Destroy? {
      NamesShape(s, a);
    }
  }

  /** An object in use is the one the map names, or its maker still has the key lock. */
  lemma WhereInUse(s: State, k: Key, v: nat)
    requires Inv(s) && v in s.values && s.values[v].key == k && Live(s, v)
    ensures if LiveAt(s, k) then s.names[k] == v
            else k in s.locks && s.locks[k] in s.pcs && s.pcs[s.locks[k]].Created? && ValueOf(s, s.locks[k]) == Some(v)
  {
    assert Placed(s, v);
    if LiveAt(s, k) {
      LiveIsUnique(s, v, s.names[k]);
    } else {
      var u :| u in s.pcs && s.pcs[u].Created? && s.pcs[u].handle in s.refs && s.refs[s.pcs[u].handle] == v;
      assert LocksKey(s.pcs[u], k);
    }
  }

  /** Whoever asks for a name in use gets the object in use, or has to wait for the key lock because
      the one who made the object has it still. */
  lemma LookupSharesObject(s: State, t: Thread, k: Key, v: nat)
    requires Inv(s) && Enabled(s, Lookup(t, k)) && v in s.values && s.values[v].key == k && Live(s, v)
    ensures var s' := Step(s, Lookup(t, k));
            if LiveAt(s, k) then s'.pcs[t] == Holding(k, s.next) && s'.refs[s.next] == v
            else s'.pcs[t] == Wanting(k) && k in s.locks && s.locks[k] in s.pcs && s.pcs[s.locks[k]].Created?
                 && ValueOf(s, s.locks[k]) == Some(v)
  {
    WhereInUse(s, k, v);
  }

  /** In every interleaving, two threads that have an object of one name have the same object. */
  lemma OneNameOneObject(acts: seq<Action>, t: Thread, u: Thread)
    requires ValidRun(INIT, acts)
    ensures var s := After(INIT, acts);
            t in s.pcs && u in s.pcs && HasHandle(s.pcs[t]) && HasHandle(s.pcs[u]) && s.pcs[t].key == s.pcs[u].key ==>
              && s.pcs[t].handle in s.refs && s.pcs[u].handle in s.refs
              && s.refs[s.pcs[t].handle] == s.refs[s.pcs[u].handle]
  {
    RunKeepsInv(INIT, acts);
    var s := After(INIT, acts);
    if t in s.pcs && u in s.pcs && HasHandle(s.pcs[t]) && HasHandle(s.pcs[u]) && s.pcs[t].key == s.pcs[u].key {
      assert Live(s, s.refs[s.pcs[t].handle]) && Live(s, s.refs[s.pcs[u].handle]);
      LiveIsUnique(s, s.refs[s.pcs[t].handle], s.refs[s.pcs[u].handle]);
    }
  }

  /** A thread that asks for an extent while another scans it is turned away, and its task is handed
      to the very owner that scans. */
  lemma DeferredToScanner(s: State, t: Thread, u: Thread)
    requires Inv(s) && Enabled(s, TryLock(t)) && u in s.pcs && s.pcs[u].Scanning? && s.pcs[u].key == s.pcs[t].key
    ensures Step(s, TryLock(t)).pcs[t] == Deferring(s.pcs[t].key, s.pcs[t].handle, s.pcs[u].owner)
  {
    assert Live(s, s.refs[s.pcs[t].handle]) && Live(s, s.refs[s.pcs[u].handle]);
    LiveIsUnique(s, s.refs[s.pcs[t].handle], s.refs[s.pcs[u].handle]);
    assert OwnerLive(s, s.pcs[u].owner);
  }

  /** try_lock always answers: the thread owns the extent if no thread scans it or is being deferred, and
      else it is being deferred. */
  lemma GrantedIff(s: State, t: Thread)
    requires Inv(s) && Enabled(s, TryLock(t))
    ensures var s' := Step(s, TryLock(t));
            && (s'.pcs[t].Scanning? <==> !Taken(s, s.refs[s.pcs[t].handle]))
            && (s'.pcs[t].Deferring? <==> Taken(s, s.refs[s.pcs[t].handle]))
            && s'.pcs[t].key == s.pcs[t].key && s'.pcs[t].handle == s.pcs[t].handle
            && s'.pcs == s.pcs[t := s'.pcs[t]] && s'.refs == s.refs && s'.names == s.names && s'.locks == s.locks
  {
    OwnerLiveIff(s, s.refs[s.pcs[t].handle]);
  }

  lemma HolderCanTry(s: State, u: Thread)
    requires HandlesOk(s) && u in s.pcs && s.pcs[u].Holding?
    ensures Enabled(s, TryLock(u))
  {
  }

  lemma SameKeySameValue(s: State, t: Thread, u: Thread)
    requires Inv(s) && t in s.pcs && u in s.pcs && HasHandle(s.pcs[t]) && HasHandle(s.pcs[u]) && s.pcs[t].key == s.pcs[u].key
    ensures ValueOf(s, t).Some? && ValueOf(s, t) == ValueOf(s, u)
  {
    assert Live(s, s.refs[s.pcs[t].handle]) && Live(s, s.refs[s.pcs[u].handle]);
    LiveIsUnique(s, s.refs[s.pcs[t].handle], s.refs[s.pcs[u].handle]);
  }

  /** After a scan the next thread that asks gets the extent, unless some thread is still being deferred. */
  lemma ReleasedIsGranted(s: State, t: Thread, u: Thread, s1: State)
    requires Inv(s) && Enabled(s, Release(t)) && s1 == Step(s, Release(t))
    requires u in s.pcs && s.pcs[u].Holding? && s.pcs[u].key == s.pcs[t].key
    requires forall w :: w in s.pcs && s.pcs[w].Deferring? ==> s.pcs[w].key != s.pcs[t].key
    ensures Enabled(s1, TryLock(u)) && Step(s1, TryLock(u)).pcs[u].Scanning?
  {
    StepKeepsInv(s, Release(t));
    SameKeySameValue(s, t, u);
    OnlyScanner(s, t, ValueOf(s, t).value, s1);
    HolderCanTry(s1, u);
    GrantedIff(s1, u);
  }

  lemma OnlyScanner(s: State, t: Thread, v: nat, s1: State)
    requires HandlesOk(s) && OwnersKnown(s) && t in s.pcs && s.pcs[t].Scanning? && ValueOf(s, t) == Some(v)
    requires forall w :: w in s.pcs && s.pcs[w].Deferring? ==> s.pcs[w].key != s.pcs[t].key
    requires s1.refs == s.refs && s1.pcs == s.pcs[t := Holding(s.pcs[t].key, s.pcs[t].handle)]
    ensures !Taken(s1, v)
  {
    forall w | w in s1.pcs && HasOwner(s1.pcs[w]) ensures ValueOf(s1, w) != Some(v) {
      OtherScanner(s, t, w);
    }
  }

  lemma OtherScanner(s: State, t: Thread, w: Thread)
    requires HandlesOk(s) && OwnersKnown(s) && t in s.pcs && s.pcs[t].Scanning? && w in s.pcs && HasOwner(s.pcs[w]) && w != t
    requires s.pcs[w].Deferring? ==> s.pcs[w].key != s.pcs[t].key
    ensures ValueOf(s, w) != ValueOf(s, t)
  {
  }

  /** A thread that has the object lets go of it and of nothing else. */
  lemma LeavingForgets(s: State, a: Action)
    requires Inv(s) && Enabled(s, a) && (a.Drop? || a.Defer?)
    ensures var s' := Step(s, a);
            && s'.pcs == s.pcs[a.t := Idle] && s'.refs == s.refs - {s.pcs[a.t].handle}
            && s'.names == s.names && s'.values == s.values && s'.locks == s.locks
  {
  }

  /** The entry of a Value that is destroyed is gone, so that the map does not grow. */
  lemma DeadNameIsErased(s: State, v: nat)
    requires Inv(s) && Enabled(s, Destroy(v)) && s.values[v].key in s.names && s.names[s.values[v].key] == v
    ensures s.values[v].key !in Step(s, Destroy(v)).names && v !in Step(s, Destroy(v)).values
  {
  }

  // ----- A thread alone gets the object

  ghost predicate Has(s: State, t: Thread, k: Key) {
    && t in s.pcs && s.pcs[t].Holding? && s.pcs[t].key == k && s.pcs[t].handle in s.refs
    && k in s.names && s.names[k] == s.refs[s.pcs[t].handle] && k !in s.locks
  }

  ghost predicate Leads(s: State, acts: seq<Action>, t: Thread, k: Key) {
    ValidRun(s, acts) && Has(After(s, acts), t, k)
  }

  lemma LeadsOn(s: State, a: Action, acts: seq<Action>, t: Thread, k: Key)
    requires Enabled(s, a) && Leads(Step(s, a), acts, t, k)
    ensures Leads(s, [a] + acts, t, k)
  {
    assert ([a] + acts)[1..] == acts;
  }

  /** A thread that wants a name, and whose turn it is, gets the object that the map names: the one in use,
      or a new one. */
  lemma WaiterGetsObject(s: State, t: Thread, k: Key) returns (acts: seq<Action>)
    requires Inv(s) && Enabled(s, LockKey(t)) && s.pcs[t].key == k
    ensures Leads(s, acts, t, k)
    ensures acts == [LockKey(t), LookAgain(t)] + if LiveAt(s, k) then [UnlockKey(t)] else [Create(t), Insert(t), UnlockKey(t)]
  {
    StepKeepsInv(s, LockKey(t));
    var rest := CheckerGetsObject(Step(s, LockKey(t)), t, k);
    LeadsOn(s, LockKey(t), rest, t, k);
    acts := [LockKey(t)] + rest;
  }

  lemma CheckerGetsObject(s: State, t: Thread, k: Key) returns (acts: seq<Action>)
    requires Inv(s) && t in s.pcs && s.pcs[t] == Checking(k)
    ensures Leads(s, acts, t, k)
    ensures acts == [LookAgain(t)] + if LiveAt(s, k) then [UnlockKey(t)] else [Create(t), Insert(t), UnlockKey(t)]
  {
    StepKeepsInv(s, LookAgain(t));
    var s' := Step(s, LookAgain(t));
    var rest;
    if LiveAt(s, k) { rest := FoundIsHeld(s', t, k); } else { rest := CallerMakesObject(s', t, k); }
    LeadsOn(s, LookAgain(t), rest, t, k);
    acts := [LookAgain(t)] + rest;
  }

  lemma FoundIsHeld(s: State, t: Thread, k: Key) returns (acts: seq<Action>)
    requires t in s.pcs && s.pcs[t].Found? && s.pcs[t].key == k && s.pcs[t].handle in s.refs && k in s.names && s.names[k] == s.refs[s.pcs[t].handle]
    ensures acts == [UnlockKey(t)] && Leads(s, acts, t, k)
  {
    acts := [UnlockKey(t)];
    var s' := Step(s, UnlockKey(t));
    assert ValidRun(s', []) && After(s', []) == s';
    assert acts[1..] == [];
  }

  lemma CallerMakesObject(s: State, t: Thread, k: Key) returns (acts: seq<Action>)
    requires Inv(s) && t in s.pcs && s.pcs[t] == Calling(k)
    ensures acts == [Create(t), Insert(t), UnlockKey(t)] && Leads(s, acts, t, k)
  {
    StepKeepsInv(s, Create(t));
    var rest := MakerInserts(Step(s, Create(t)), t, k);
    LeadsOn(s, Create(t), rest, t, k);
    acts := [Create(t)] + rest;
  }

  lemma MakerInserts(s: State, t: Thread, k: Key) returns (acts: seq<Action>)
    requires HandlesOk(s) && t in s.pcs && s.pcs[t].Created? && s.pcs[t].key == k
    ensures acts == [Insert(t), UnlockKey(t)] && Leads(s, acts, t, k)
  {
    var s' := Step(s, Insert(t));
    assert s'.pcs == s.pcs[t := Found(k, s.pcs[t].handle)];
    var rest := FoundIsHeld(s', t, k);
    LeadsOn(s, Insert(t), rest, t, k);
    acts := [Insert(t)] + rest;
  }

  // ----- The code, region by region

  /** The shared state and the threads' local pointers.  Each method is one region under the locks, and
      is proved to be the step of the same name. */
  class ExtentLocks {
    var names: map<Key, nat>
    var values: map<nat, Value>
    var refs: map<nat, nat>
    var locks: map<Key, Thread>
    var pcs: map<Thread, Pc>
    var next: nat

    function View(): State
      reads this
    {
      State(names, values, refs, locks, pcs, next)
    }

    constructor ()
      ensures View() == INIT
    {
      names, values, refs, locks, pcs, next := map[], map[], map[], map[], map[], 0;
    }

    /** A strong pointer to the object of this name, or none if there is no entry or it has expired. */
    method LookupItem(k: Key) returns (r: Option<nat>)
      modifies this`refs, this`next
      ensures r.Some? <==> old(LiveAt(View(), k))
      ensures View() == if r.Some? then NewRef(old(View()), old(names[k])) else old(View())
      ensures r.Some? ==> r.value == old(next)
    {
      if k in names {
        var v := names[k];
        if exists h :: h in refs && refs[h] == v {
          r := Some(next);
          refs := refs[next := v];
          next := next + 1;
          return;
        }
      }
      r := None;
    }

    method FirstLookup(t: Thread, k: Key)
      requires Enabled(View(), Lookup(t, k))
      modifies this
      ensures View() == Step(old(View()), Lookup(t, k))
    {
      var r := LookupItem(k);
      pcs := pcs[t := if r.Some? then Holding(k, r.value) else Wanting(k)];
    }

    /** LockSet::lock, when the wait is over; false while another thread has the key. */
    method TryLockKey(t: Thread) returns (locked: bool)
      requires t in pcs && pcs[t].Wanting?
      modifies this
      ensures locked == Enabled(old(View()), LockKey(t))
      ensures View() == if locked then Step(old(View()), LockKey(t)) else old(View())
    {
      var k := pcs[t].key;
      if k in locks {
        return false;
      }
      locks := locks[k := t];
      pcs := pcs[t := Checking(k)];
      locked := true;
    }

    method SecondLookup(t: Thread)
      requires Enabled(View(), LookAgain(t))
      modifies this
      ensures View() == Step(old(View()), LookAgain(t))
    {
      var k := pcs[t].key;
      var r := LookupItem(k);
      pcs := pcs[t := if r.Some? then Found(k, r.value) else Calling(k)];
    }

    method MakeValue(t: Thread)
      requires Enabled(View(), Create(t))
      modifies this
      ensures View() == Step(old(View()), Create(t))
    {
      var k := pcs[t].key;
      values := values[next := Value(k, None)];
      refs := refs[next := next];
      pcs := pcs[t := Created(k, next)];
      next := next + 1;
    }

    /** The assert of the source is proved here, for every state the invariant allows. */
    method InsertValue(t: Thread)
      requires Inv(View()) && Enabled(View(), Insert(t))
      modifies this
      ensures View() == Step(old(View()), Insert(t))
    {
      var p := pcs[t];
      SlotIsExpired(View(), t);
      assert p.key !in names || !Live(View(), names[p.key]);
      names := names[p.key := refs[p.handle]];
      pcs := pcs[t := Found(p.key, p.handle)];
    }

    /** LockSet::unlock; the key was locked, as its check demands. */
    method ReleaseKey(t: Thread)
      requires Inv(View()) && Enabled(View(), UnlockKey(t))
      modifies this
      ensures View() == Step(old(View()), UnlockKey(t))
    {
      var p := pcs[t];
      assert LocksKey(p, p.key) && p.key in locks;
      locks := locks - {p.key};
      pcs := pcs[t := Holding(p.key, p.handle)];
    }

    /** Exclusion::try_lock */
    method TryOwn(t: Thread) returns (owned: bool)
      requires Enabled(View(), TryLock(t))
      modifies this
      ensures View() == Step(old(View()), TryLock(t)) && owned == pcs[t].Scanning?
    {
      var p := pcs[t];
      var v := refs[p.handle];
      var owner := values[v].owner;
      if owner.Some? && OwnerLive(View(), owner.value) {
        pcs := pcs[t := Deferring(p.key, p.handle, owner.value)];
        owned := false;
      } else {
        values := values[v := values[v].(owner := Some(next))];
        pcs := pcs[t := Scanning(p.key, p.handle, next)];
        next := next + 1;
        owned := true;
      }
    }

    /** ~Value */
    method DestroyValue(v: nat)
      requires Enabled(View(), Destroy(v))
      modifies this
      ensures View() == Step(old(View()), Destroy(v))
    {
      var k := values[v].key;
      if k in names && !Live(View(), names[k]) {
        names := names - {k};
      }
      values := values - {v};
    }
  }
}
