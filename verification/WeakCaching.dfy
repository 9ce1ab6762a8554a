/** Cache that keeps recently used objects, and finds others while they are not garbage collected. */
module WeakCaching {
  import opened Wrappers

  type Key = string

  /** Identity of a cached object. */
  type Obj = nat

  datatype WeakRef = WeakRef(id: nat, obj: Obj)

  datatype FinalInfo = FinalInfo(key: Key, wRef: WeakRef)

  datatype State = State(filling: map<Key, Obj>, waiting: map<Key, Obj>, wRefs: map<Key, WeakRef>)

  // ---------- what methods do

  function Got(s: State, collected: set<Obj>, key: Key): (r: (State, Option<Obj>)) {
    if key in s.filling then (s, Some(s.filling[key]))
    else if key in s.waiting then
      (s.(waiting := s.waiting - {key}, filling := s.filling[key := s.waiting[key]]), Some(s.waiting[key]))
    else if key !in s.wRefs then (s, None)
    else if s.wRefs[key].obj in collected then (s.(wRefs := s.wRefs - {key}), None)
    else (s.(filling := s.filling[key := s.wRefs[key].obj]), Some(s.wRefs[key].obj))
  }

  function WithSet(s: State, key: Key, wRef: WeakRef): State {
    s.(filling := s.filling[key := wRef.obj], wRefs := s.wRefs[key := wRef])
  }

  function Without(s: State, key: Key): State {
    State(s.filling - {key}, s.waiting - {key}, s.wRefs - {key})
  }

  function Rotated(s: State): State {
    s.(filling := map[], waiting := s.filling)
  }

  function Finalized(s: State, info: FinalInfo): State {
    if info.key in s.wRefs && s.wRefs[info.key] == info.wRef then s.(wRefs := s.wRefs - {info.key}) else s
  }

  /** Garbage collector, as it is seen by a cache. */
  class Collector {
    var collected: set<Obj>
    var registered: set<FinalInfo>
    var refsMade: nat

    constructor ()
      ensures collected == {} && registered == {} && refsMade == 0
    {
      collected, registered, refsMade := {}, {}, 0;
    }

    method MakeRef(obj: Obj) returns (wRef: WeakRef)
      modifies this`refsMade
      ensures wRef == WeakRef(old(refsMade), obj) && refsMade == old(refsMade) + 1
    {
      wRef := WeakRef(refsMade, obj);
      refsMade := refsMade + 1;
    }

    method Deref(wRef: WeakRef) returns (obj: Option<Obj>)
      ensures obj == if wRef.obj in collected then None else Some(wRef.obj)
    {
      obj := if wRef.obj in collected then None else Some(wRef.obj);
    }
  }

  class WeakCache {
    const gc: Collector
    var wRefs: map<Key, WeakRef>

    constructor (gc: Collector)
      ensures this.gc == gc && wRefs == map[]
    {
      this.gc, wRefs := gc, map[];
    }

    method Get(key: Key) returns (r: Option<Obj>)
      modifies this
      ensures r == if key in old(wRefs) && old(wRefs)[key].obj !in gc.collected
                   then Some(old(wRefs)[key].obj) else None
      ensures wRefs == if r.Some? then old(wRefs) else old(wRefs) - {key}
    {
      if key in wRefs {
        var v := gc.Deref(wRefs[key]);
        if v.None? {
          wRefs := wRefs - {key};
        } else {
          return v;
        }
      }
      r := None;
    }

    method Set(key: Key, obj: Obj)
      modifies this, gc
      ensures wRefs == old(wRefs)[key := WeakRef(old(gc.refsMade), obj)]
      ensures gc.refsMade == old(gc.refsMade) + 1 && gc.collected == old(gc.collected)
      ensures gc.registered == old(gc.registered) + {FinalInfo(key, wRefs[key])}
    {
      var wRef := gc.MakeRef(obj);
      gc.registered := gc.registered + {FinalInfo(key, wRef)};
      wRefs := wRefs[key := wRef];
    }

    /** Finalizer may come late, when a key has a reference to another object. */
    method Finalize(info: FinalInfo)
      modifies this
      ensures wRefs == if info.key in old(wRefs) && old(wRefs)[info.key] == info.wRef
                       then old(wRefs) - {info.key} else old(wRefs)
    {
      if info.key in wRefs && wRefs[info.key] == info.wRef {
        wRefs := wRefs - {info.key};
      }
    }
  }

  class WeakCacheWithMinLifeTime {
    const wCache: WeakCache
    var filling: map<Key, Obj>
    var waiting: map<Key, Obj>

    constructor (gc: Collector)
      ensures GetState() == State(map[], map[], map[]) && wCache.gc == gc && fresh(wCache)
    {
      wCache := new WeakCache(gc);
      filling, waiting := map[], map[];
    }

    ghost function GetState(): State
      reads this, wCache
    {
      State(filling, waiting, wCache.wRefs)
    }

    method DropAndRotate()
      modifies this
      ensures GetState() == Rotated(old(GetState()))
      ensures filling == map[] && waiting == old(filling) && wCache.wRefs == old(wCache.wRefs)
    {
      waiting := map[];
      var b := waiting;
      waiting := filling;
      filling := b;
    }

    method Get(key: Key) returns (r: Option<Obj>)
      modifies this, wCache
      ensures (GetState(), r) == Got(old(GetState()), wCache.gc.collected, key)
      ensures r.None? ==> filling == old(filling) && waiting == old(waiting) && key !in wCache.wRefs
      ensures r.Some? ==>
                && filling == old(filling)[key := r.value] && wCache.wRefs == old(wCache.wRefs)
                && waiting == if key in old(filling) then old(waiting) else old(waiting) - {key}
      ensures key in old(filling) ==> r == Some(old(filling)[key])
      ensures key !in old(filling) && key in old(waiting) ==> r == Some(old(waiting)[key])
    {
      if key in filling {
        return Some(filling[key]);
      }
      if key in waiting {
        var v := waiting[key];
        waiting := waiting - {key};
        filling := filling[key := v];
        return Some(v);
      }
      r := wCache.Get(key);
      if r.Some? {
        filling := filling[key := r.value];
      } else {
        assert key !in old(wCache.wRefs) ==> wCache.wRefs == old(wCache.wRefs);
      }
    }

    method Set(key: Key, obj: Obj)
      modifies this, wCache, wCache.gc
      ensures GetState() == WithSet(old(GetState()), key, WeakRef(old(wCache.gc.refsMade), obj))
      ensures filling == old(filling)[key := obj] && waiting == old(waiting)
      ensures wCache.wRefs == old(wCache.wRefs)[key := WeakRef(old(wCache.gc.refsMade), obj)]
      ensures wCache.gc.refsMade == old(wCache.gc.refsMade) + 1
      ensures wCache.gc.collected == old(wCache.gc.collected)
      ensures wCache.gc.registered ==
              old(wCache.gc.registered) + {FinalInfo(key, WeakRef(old(wCache.gc.refsMade), obj))}
    {
      filling := filling[key := obj];
      wCache.Set(key, obj);
    }

    method Delete(key: Key)
      modifies this, wCache
      ensures GetState() == Without(old(GetState()), key)
      ensures filling == old(filling) - {key} && waiting == old(waiting) - {key}
      ensures wCache.wRefs == old(wCache.wRefs) - {key}
    {
      filling := filling - {key};
      waiting := waiting - {key};
      wCache.wRefs := wCache.wRefs - {key};
    }

    method Clear()
      modifies this, wCache
      ensures GetState() == State(map[], map[], map[])
    {
      filling := map[];
      waiting := map[];
      wCache.wRefs := map[];
    }
  }

  // ---------- runs

  /** Cache with what surrounds it: objects that were collected, objects that are used elsewhere,
    * and, as a record for proofs, the last object that was set for a key. */
  datatype World = World(
    cache: State, collected: set<Obj>, held: set<Obj>,
    registered: set<FinalInfo>, refsMade: nat, last: map<Key, Obj>)

  datatype Action =
    | Get(key: Key)
    | Set(key: Key, obj: Obj)
    | Delete(key: Key)
    | Clear
    | Rotate
    | Release(obj: Obj)
    | Collect(obj: Obj)
    | Finalize(info: FinalInfo)

  const INITIAL := World(State(map[], map[], map[]), {}, {}, {}, 0, map[])

  /** Only objects that nobody holds are collected, and a finalizer comes some time after that. */
  predicate Possible(w: World, a: Action) {
    match a
    case Set(_, obj) => obj !in w.collected
    case Collect(obj) => obj !in w.held && obj !in w.cache.filling.Values && obj !in w.cache.waiting.Values
    case Finalize(info) => info in w.registered && info.wRef.obj in w.collected
    case _ => true
  }

  function Next(w: World, a: Action): World {
    match a
    case Get(key) =>
      var (cache, r) := Got(w.cache, w.collected, key);
      w.(cache := cache, held := w.held + if r.Some? then {r.value} else {})
    case Set(key, obj) =>
      var wRef := WeakRef(w.refsMade, obj);
      World(WithSet(w.cache, key, wRef), w.collected, w.held + {obj},
            w.registered + {FinalInfo(key, wRef)}, w.refsMade + 1, w.last[key := obj])
    case Delete(key) => w.(cache := Without(w.cache, key), last := w.last - {key})
    case Clear => w.(cache := State(map[], map[], map[]), last := map[])
    case Rotate => w.(cache := Rotated(w.cache))
    case Release(obj) => w.(held := w.held - {obj})
    case Collect(obj) => w.(collected := w.collected + {obj})
    case Finalize(info) => w.(cache := Finalized(w.cache, info), registered := w.registered - {info})
  }

  predicate PossibleRun(w: World, actions: seq<Action>)
    decreases |actions|
  {
    |actions| > 0 ==> Possible(w, actions[0]) && PossibleRun(Next(w, actions[0]), actions[1..])
  }

  function Run(w: World, actions: seq<Action>): World
    decreases |actions|
  {
    if |actions| == 0 then w else Run(Next(w, actions[0]), actions[1..])
  }

  ghost predicate Inv(w: World) {
    && w.held !! w.collected
    && (forall k :: k in w.cache.filling ==>
          k in w.last && w.cache.filling[k] == w.last[k] && w.last[k] !in w.collected)
    && (forall k :: k in w.cache.waiting ==>
          k in w.last && w.cache.waiting[k] !in w.collected
          && (k in w.cache.filling || w.cache.waiting[k] == w.last[k]))
    && (forall k :: k in w.cache.wRefs ==> k in w.last && w.cache.wRefs[k].obj == w.last[k])
    && (forall k :: k in w.last && w.last[k] !in w.collected ==> k in w.cache.wRefs)
  }

  lemma StepKeepsInv(w: World, a: Action)
    requires Inv(w) && Possible(w, a)
    ensures Inv(Next(w, a))
  {
    if a.Collect? {
      assert forall k :: k in w.cache.filling ==> w.cache.filling[k] in w.cache.filling.Values;
      assert forall k :: k in w.cache.waiting ==> w.cache.waiting[k] in w.cache.waiting.Values;
    }
  }

  lemma {:induction false} RunKeepsInv(w: World, actions: seq<Action>)
    requires Inv(w) && PossibleRun(w, actions)
    ensures Inv(Run(w, actions))
    decreases |actions|
  {
    if |actions| > 0 {
      StepKeepsInv(w, actions[0]);
      RunKeepsInv(Next(w, actions[0]), actions[1..]);
    }
  }

  /** The last set object is found exactly when it isn't collected, and nothing else is ever found. */
  lemma GetIsExact(actions: seq<Action>, key: Key)
    requires PossibleRun(INITIAL, actions)
    ensures var w := Run(INITIAL, actions);
            Got(w.cache, w.collected, key).1 ==
              if key in w.last && w.last[key] !in w.collected then Some(w.last[key]) else None
  {
    RunKeepsInv(INITIAL, actions);
  }

  /** What is used anywhere, is found. */
  lemma HeldIsFound(actions: seq<Action>, key: Key)
    requires PossibleRun(INITIAL, actions)
    ensures var w := Run(INITIAL, actions);
            key in w.last && w.last[key] in w.held ==>
              Got(w.cache, w.collected, key).1 == Some(w.last[key])
  {
    RunKeepsInv(INITIAL, actions);
    GetIsExact(actions, key);
  }

  function Rotations(actions: seq<Action>): nat {
    if |actions| == 0 then 0 else (if actions[0].Rotate? then 1 else 0) + Rotations(actions[1..])
  }

  predicate Replaces(a: Action, key: Key) {
    (a.Set? && a.key == key) || (a.Delete? && a.key == key) || a.Clear?
  }

  /** Object of a key stays in a strong map for two more rotations, or for one. */
  predicate Kept(w: World, key: Key, obj: Obj, rotationsLeft: nat) {
    && key in w.last && w.last[key] == obj
    && (|| (key in w.cache.filling && w.cache.filling[key] == obj)
        || (rotationsLeft < 2 && key in w.cache.waiting && w.cache.waiting[key] == obj))
  }

  lemma {:induction false} KeptInRun(w: World, actions: seq<Action>, key: Key, obj: Obj, rotationsLeft: nat)
    requires Inv(w) && PossibleRun(w, actions) && Kept(w, key, obj, rotationsLeft)
    requires forall i :: 0 <= i < |actions| ==> !Replaces(actions[i], key)
    requires Rotations(actions) < rotationsLeft <= 2
    ensures Got(Run(w, actions).cache, Run(w, actions).collected, key).1 == Some(obj)
    decreases |actions|
  {
    if |actions| == 0 {
    } else {
      var a := actions[0];
      StepKeepsInv(w, a);
      var left := if a.Rotate? then rotationsLeft - 1 else rotationsLeft;
      assert !Replaces(a, key);
      assert Kept(Next(w, a), key, obj, left);
      KeptInRun(Next(w, a), actions[1..], key, obj, left);
    }
  }

  /** Whatever is collected in between, object of a used key survives till the second rotation. */
  lemma TouchedSurvives(before: seq<Action>, touch: Action, after: seq<Action>, key: Key)
    requires PossibleRun(INITIAL, before)
    requires var w := Run(INITIAL, before);
             && Possible(w, touch)
             && PossibleRun(Next(w, touch), after)
             && (|| (touch.Set? && touch.key == key)
                 || (touch == Get(key) && Got(w.cache, w.collected, key).1.Some?))
    requires forall i :: 0 <= i < |after| ==> !Replaces(after[i], key)
    requires Rotations(after) < 2
    ensures var w := Next(Run(INITIAL, before), touch);
            var end := Run(w, after);
            key in w.last && Got(end.cache, end.collected, key).1 == Some(w.last[key])
  {
    var w := Run(INITIAL, before);
    RunKeepsInv(INITIAL, before);
    StepKeepsInv(w, touch);
    var touched := Next(w, touch);
    KeptInRun(touched, after, key, touched.last[key], 2);
  }

  /** After the second rotation an object may be lost. */
  lemma TwoRotationsMayLose(key: Key, obj: Obj)
    ensures var actions := [Set(key, obj), Release(obj), Rotate, Rotate, Collect(obj)];
            && PossibleRun(INITIAL, actions)
            && Got(Run(INITIAL, actions).cache, Run(INITIAL, actions).collected, key).1 == None
  {
    var w1 := Next(INITIAL, Set(key, obj));
    var w2 := Next(w1, Release(obj));
    var w3 := Next(w2, Rotate);
    var w4 := Next(w3, Rotate);
    FirstStep(w4, Collect(obj), []);
    FirstStep(w3, Rotate, [Collect(obj)]);
    FirstStep(w2, Rotate, [Rotate, Collect(obj)]);
    FirstStep(w1, Release(obj), [Rotate, Rotate, Collect(obj)]);
    FirstStep(INITIAL, Set(key, obj), [Release(obj), Rotate, Rotate, Collect(obj)]);
  }

  lemma FirstStep(w: World, a: Action, rest: seq<Action>)
    ensures PossibleRun(w, [a] + rest) <==> Possible(w, a) && PossibleRun(Next(w, a), rest)
    ensures Run(w, [a] + rest) == Run(Next(w, a), rest)
  {
    assert ([a] + rest)[1..] == rest;
  }
}
