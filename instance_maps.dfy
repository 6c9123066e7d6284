/** The shape of the engine's instance maps and the ownership discipline of the
    handles bound in them. */
module InstanceMaps {
  import opened Common
  import opened Mono
  import opened ScriptClasses
  import opened ScriptInstances

  /** Which instance map is active: CurrentEntityInstanceMap. */
  datatype Mode = EditMode | RuntimeMode

  /** A binding position: a map, an entity and a class name. */
  datatype Slot = Slot(mode: Mode, id: UUID, name: string)

  /** An (entity, class name) position within one map. */
  type Binding = (UUID, string)

  /** The source's entity identifier to (class name to instance) map, as the set
      of its bound (entity, class name) positions. */
  type InstanceMap = map<Binding, ScriptInstance>

  /** No instance object is bound at two positions. */
  ghost predicate InjectiveBindings(m: InstanceMap)
  {
    forall p, q | p in m && q in m && p != q :: m[p] != m[q]
  }

  /** No two positions of `m` hold the same handle. */
  ghost predicate DistinctHandles(m: InstanceMap)
    reads m.Values`handle
  {
    forall p, q | p in m && q in m && p != q :: m[p].handle != m[q].handle
  }

  /** `t` records, for every bound position of `m`, the handle its instance holds. */
  ghost predicate Mirror(m: InstanceMap, t: map<Binding, Handle>)
    reads m.Values`handle
  {
    && t.Keys == m.Keys
    && forall p | p in m :: m[p].handle == t[p]
  }

  lemma MirrorBind(m: InstanceMap, t: map<Binding, Handle>, p: Binding, inst: ScriptInstance)
    requires Mirror(m, t)
    ensures Mirror(m[p := inst], t[p := inst.handle])
  {
  }

  lemma MirrorUnbind(m: InstanceMap, t: map<Binding, Handle>, p: Binding)
    requires Mirror(m, t)
    ensures Mirror(m - {p}, t - {p})
  {
  }

  /** The handles held by the instances bound in `m`. */
  ghost function HandlesOf(m: InstanceMap): set<Handle>
    reads m.Values`handle
  {
    set p | p in m :: m[p].handle
  }

  /** In an injective map, the instance at `p` is bound nowhere else. */
  lemma InjectiveDistinct(m: InstanceMap, p: Binding)
    requires InjectiveBindings(m) && p in m
    ensures m[p] !in (m - {p}).Values
  {
    forall q | q in m - {p} ensures (m - {p})[q] != m[p] {
      assert q in m && q != p;
    }
  }

  /** An instance whose handle the table does not record is not bound. */
  lemma MirrorAbsent(m: InstanceMap, t: map<Binding, Handle>, x: ScriptInstance)
    requires Mirror(m, t) && x.handle !in t.Values
    ensures x !in m.Values
  {
    forall q | q in m ensures m[q] != x {
      assert t[q] == m[q].handle;
    }
  }

  lemma MirrorHandles(m: InstanceMap, t: map<Binding, Handle>)
    requires Mirror(m, t)
    ensures HandlesOf(m) == t.Values
  {
    forall h | h in t.Values ensures h in HandlesOf(m) {
      var p :| p in t && t[p] == h;
      assert m[p].handle == h;
    }
  }

  /** Distinct handles make distinct instances. */
  lemma MirrorInjective(m: InstanceMap, t: map<Binding, Handle>)
    requires Mirror(m, t)
    requires forall p, q | p in t && q in t && p != q :: t[p] != t[q]
    ensures InjectiveBindings(m)
  {
    forall p, q | p in m && q in m && p != q
      ensures m[p] != m[q]
    {
      assert t[p] != t[q];
    }
  }

  /** The handles `t` records at the positions `ps`. */
  ghost function HandlesAt(t: map<Binding, Handle>, ps: set<Binding>): set<Handle>
  {
    set p | p in ps && p in t :: t[p]
  }

  lemma HandlesAtStep(t: map<Binding, Handle>, ps: set<Binding>, todo: set<Binding>, p: Binding)
    requires p in todo && todo <= t.Keys && ps == t.Keys - todo
    ensures t.Keys - (todo - {p}) == ps + {p}
    ensures HandlesAt(t, ps + {p}) == HandlesAt(t, ps) + {t[p]}
  {
  }

  /** The handle table grows by exactly the handles `t` records at `ps`: when `h` is
      pinned and recorded at one more position `p`, that stays so for `ps + {p}`. */
  lemma IssuedBind(objects0: map<Handle, MonoObject>, objects: map<Handle, MonoObject>,
                   grown: map<Handle, MonoObject>, t: map<Binding, Handle>, ps: set<Binding>, p: Binding, h: Handle)
    requires p !in ps && objects.Keys == objects0.Keys + HandlesAt(t, ps) && grown.Keys == objects.Keys + {h}
    ensures grown.Keys == objects0.Keys + HandlesAt(t[p := h], ps + {p})
  {
    assert HandlesAt(t[p := h], ps + {p}) == HandlesAt(t, ps) + {h};
  }

  /** The handles a table records at `ps` are the handles its instances hold there. */
  lemma MirrorHandlesAt(m: InstanceMap, t: map<Binding, Handle>, ps: set<Binding>)
    requires Mirror(m, t) && ps <= m.Keys
    ensures HandlesAt(t, ps) == set q | q in ps :: m[q].handle
  {
  }

  /** Every handle live in `objects0` is still live in `objects`, naming the same object. */
  ghost predicate Extends(objects0: map<Handle, MonoObject>, objects: map<Handle, MonoObject>)
  {
    forall h | h in objects0 :: h in objects && objects[h] == objects0[h]
  }

  lemma ExtendsIssue(objects: map<Handle, MonoObject>, h: Handle, obj: MonoObject)
    requires h !in objects
    ensures Extends(objects, objects[h := obj])
  {
  }

  /** `objects` is `objects0` with more objects pinned, all of them under
      handles at or above `next0`. */
  ghost predicate GrowsAbove(objects0: map<Handle, MonoObject>, objects: map<Handle, MonoObject>, next0: Handle)
  {
    Extends(objects0, objects) && forall h | h in objects && h !in objects0 :: h >= next0
  }

  lemma GrowsAboveIssue(objects0: map<Handle, MonoObject>, objects: map<Handle, MonoObject>, next0: Handle,
                        h: Handle, obj: MonoObject)
    requires GrowsAbove(objects0, objects, next0) && h !in objects && h >= next0
    ensures GrowsAbove(objects0, objects[h := obj], next0)
  {
  }

  /** Handles released below `next0` stay released while objects are only
      pinned at or above it. */
  lemma StillReleased(released: set<Handle>, objects0: map<Handle, MonoObject>, objects: map<Handle, MonoObject>,
                      next0: Handle)
    requires released !! objects0.Keys && GrowsAbove(objects0, objects, next0)
    requires forall h | h in released :: h < next0
    ensures released !! objects.Keys
  {
  }

  lemma ExtendsTrans(a: map<Handle, MonoObject>, b: map<Handle, MonoObject>, c: map<Handle, MonoObject>)
    requires Extends(a, b) && Extends(b, c)
    ensures Extends(a, c)
  {
  }

  /** Handles that only gain entries and then lose `copies`, none of which is
      in `t`, keep every handle of `t` with its object. */
  lemma KeptThroughRuntime(objects0: map<Handle, MonoObject>, objects1: map<Handle, MonoObject>,
                           objects2: map<Handle, MonoObject>, t: map<Binding, Handle>, copies: set<Handle>)
    requires (forall p | p in t :: t[p] in objects0) && Extends(objects0, objects1)
    requires t.Values !! copies && objects2 == objects1 - copies
    ensures forall p | p in t :: t[p] in objects2 && objects2[t[p]] == objects0[t[p]]
  {
    forall p | p in t
      ensures t[p] in objects2 && objects2[t[p]] == objects0[t[p]]
    {
      assert t[p] in t.Values;
    }
  }

  /** Every position of `done` holds in `r` a copy of the instance `e` binds
      there, under a handle issued at or after `next0` to a copy of the original's managed object
      in `objects` carrying the binding's entity identifier. */
  ghost predicate CopiedIn(done: set<Binding>, e: InstanceMap, r: InstanceMap,
                           next0: Handle, objects: map<Handle, MonoObject>)
    reads e.Values`scriptClass, e.Values`handle
    reads r.Values`scriptClass, r.Values`handle, r.Values`fields, r.Values`onCreate, r.Values`onUpdate, r.Values`onDestroy
  {
    forall q {:trigger q in done} | q in done ::
      && q in r && q in e
      && var c, s := r[q], e[q];
         && c.CopyOf(s) && c.handle >= next0 && c.handle in objects && s.handle in objects
         && objects[c.handle] == objects[s.handle].(entityId := q.0)
  }

  /** Binding one more copy, under a handle not live before, extends `CopiedIn`. */
  lemma CopiedBind(done: set<Binding>, e: InstanceMap, r: InstanceMap,
                   next0: Handle, objects: map<Handle, MonoObject>,
                   p: Binding, copy: ScriptInstance)
    requires CopiedIn(done, e, r, next0, objects) && p !in done && p in e
    requires e[p].handle in objects && copy.handle !in objects && copy.handle >= next0
    requires copy.CopyOf(e[p])
    ensures CopiedIn(done + {p}, e, r[p := copy], next0,
                     objects[copy.handle := objects[e[p].handle].(entityId := p.0)])
  {
  }

  /** The field snapshot of every bound instance. */
  ghost function FieldsOf(m: InstanceMap): (r: map<Binding, map<string, Field>>)
    reads m.Values`fields
    ensures r.Keys == m.Keys
  {
    map q | q in m :: m[q].fields
  }

  /** Every class name bound in `m` is registered in `cls`. */
  ghost predicate Registered(m: InstanceMap, cls: map<string, ScriptClass>)
  {
    forall q | q in m :: q.1 in cls
  }

  /** The state of every bound instance. */
  ghost function States(m: InstanceMap): (r: map<Binding, InstanceState>)
    reads m.Values`scriptClass, m.Values`handle, m.Values`fields, m.Values`onCreate, m.Values`onUpdate, m.Values`onDestroy
    ensures r.Keys == m.Keys
  {
    map q | q in m :: m[q].State()
  }

  /** `r` binds exactly the positions of `expected`, each to an instance in the
      state recorded there. */
  ghost predicate Holds(r: InstanceMap, expected: map<Binding, InstanceState>)
    reads r.Values`scriptClass, r.Values`handle, r.Values`fields, r.Values`onCreate, r.Values`onUpdate, r.Values`onDestroy
  {
    && r.Keys == expected.Keys
    && forall q | q in r :: r[q].State() == expected[q]
  }

  /** A map that holds `expected` has exactly those states. */
  lemma HoldsStates(r: InstanceMap, expected: map<Binding, InstanceState>)
    requires Holds(r, expected)
    ensures States(r) == expected
  {
  }

  /** Dropping a position from both keeps `Holds`. */
  lemma HoldsRemove(r: InstanceMap, expected: map<Binding, InstanceState>, p: Binding)
    requires Holds(r, expected)
    ensures Holds(r - {p}, expected - {p})
  {
  }

  /** The instance at `p` now in a new state, where the others are as recorded. */
  lemma HoldsReplace(r: InstanceMap, expected: map<Binding, InstanceState>, p: Binding, inst: ScriptInstance)
    requires p in r && r[p] == inst && p in expected && Holds(r - {p}, expected - {p})
    ensures Holds(r, expected[p := inst.State()])
  {
    assert r.Keys == (r - {p}).Keys + {p} && expected.Keys == (expected - {p}).Keys + {p};
    forall q | q in r ensures q in expected && r[q].State() == expected[p := inst.State()][q] {
      if q != p {
        assert q in r - {p};
      }
    }
  }

  /** Taking one more position `p` out of the pending set `todo` of `m - todo`,
      with `v` recorded there anew. */
  lemma MinusBind<V>(m: map<Binding, V>, todo: set<Binding>, p: Binding, v: V)
    requires p in todo
    ensures (m - todo)[p := v] == m[p := v] - (todo - {p})
    ensures p in m && m[p] == v ==> m[p := v] == m
  {
  }

  /** The handle each recorded state holds. */
  function HandlesIn(e: map<Binding, InstanceState>): (t: map<Binding, Handle>)
    ensures t.Keys == e.Keys
  {
    map p | p in e :: e[p].handle
  }

  /** Recording the state `s` at a new position adds exactly its handle. */
  lemma HandlesInBind(e: map<Binding, InstanceState>, p: Binding, s: InstanceState)
    requires p !in e
    ensures HandlesIn(e[p := s]).Values == HandlesIn(e).Values + {s.handle}
  {
    assert HandlesIn(e[p := s])[p] == s.handle;
    forall h | h in HandlesIn(e).Values ensures h in HandlesIn(e[p := s]).Values {
      var q :| q in HandlesIn(e) && HandlesIn(e)[q] == h;
      assert HandlesIn(e[p := s])[q] == h;
    }
  }

  /** The handle table grows by exactly the handles of the recorded states `e`:
      when the handle of one more state `s` is pinned, that stays so for `e[p := s]`. */
  lemma IssuedInBind(objects0: map<Handle, MonoObject>, objects: map<Handle, MonoObject>,
                     grown: map<Handle, MonoObject>, e: map<Binding, InstanceState>, p: Binding, s: InstanceState)
    requires p !in e && objects.Keys == objects0.Keys + HandlesIn(e).Values && grown.Keys == objects.Keys + {s.handle}
    ensures grown.Keys == objects0.Keys + HandlesIn(e[p := s]).Values
  {
    HandlesInBind(e, p, s);
  }

  /** Before the first step, no state is recorded outside the pending positions. */
  lemma NoneIssued(objects: map<Handle, MonoObject>, e: map<Binding, InstanceState>, todo: set<Binding>)
    requires e.Keys == todo
    ensures objects.Keys == objects.Keys + HandlesIn(e - todo).Values
  {
    assert e - todo == map[];
  }

  /** A map in the recorded states holds exactly their handles. */
  lemma HoldsHandles(r: InstanceMap, expected: map<Binding, InstanceState>)
    requires Holds(r, expected)
    ensures HandlesOf(r) == HandlesIn(expected).Values
  {
    HoldsMirror(r, expected);
    MirrorHandles(r, HandlesIn(expected));
  }

  /** The handles of a map in the recorded states are its handle table. */
  lemma HoldsMirror(r: InstanceMap, expected: map<Binding, InstanceState>)
    requires Holds(r, expected)
    ensures Mirror(r, HandlesIn(expected))
  {
  }

  /** Every recorded state is an instance rebound to the class registered under
      its own class name in `cls`: its lifecycle handles are looked up there, it
      holds a handle issued at or after `next0` to a new object of that class
      for its entity, and its snapshot is reconciled against `prior`. */
  ghost predicate ReboundAs(e: map<Binding, InstanceState>, cls: map<string, ScriptClass>, next0: Handle,
                            objects: map<Handle, MonoObject>, prior: map<Binding, map<string, Field>>)
  {
    forall q {:trigger q in e} | q in e ::
      && q.1 in cls && q in prior
      && var s := e[q];
         && s.scriptClass == cls[q.1]
         && s.onCreate == cls[q.1].FindMethod(OnCreateSignature)
         && s.onUpdate == cls[q.1].FindMethod(OnUpdateSignature)
         && s.onDestroy == cls[q.1].FindMethod(OnDestroySignature)
         && s.handle >= next0 && s.handle in objects
         && objects[s.handle] == MonoObject(q.1, q.0)
         && s.fields == Reconciled(cls[q.1].fields, prior[q], s.handle)
  }

  /** Every instance bound in `r` was rebound to the class registered under its
      own class name in `cls`, in the sense of `ReboundAs`. */
  ghost predicate ReboundIn(r: InstanceMap, cls: map<string, ScriptClass>, next0: Handle,
                            objects: map<Handle, MonoObject>, prior: map<Binding, map<string, Field>>)
    reads r.Values`scriptClass, r.Values`handle, r.Values`fields, r.Values`onCreate, r.Values`onUpdate, r.Values`onDestroy
  {
    ReboundAs(States(r), cls, next0, objects, prior)
  }

  /** Recording one more rebound state, under a handle not live before, extends `ReboundAs`. */
  lemma ReboundBind(e: map<Binding, InstanceState>, cls: map<string, ScriptClass>, next0: Handle,
                    objects: map<Handle, MonoObject>, prior: map<Binding, map<string, Field>>,
                    p: Binding, inst: ScriptInstance)
    requires ReboundAs(e, cls, next0, objects, prior) && p !in e && p.1 in cls && p in prior
    requires inst.scriptClass == cls[p.1] && inst.LifecycleBoundTo(cls[p.1])
    requires inst.handle >= next0 && inst.handle !in objects
    requires inst.fields == Reconciled(cls[p.1].fields, prior[p], inst.handle)
    ensures ReboundAs(e[p := inst.State()], cls, next0, objects[inst.handle := MonoObject(p.1, p.0)], prior)
  {
  }

  /** The slot each handle pinned at or above `next0` is recorded against: the
      binding its object was created for, read back from the object. */
  ghost function SlotsAbove(objects: map<Handle, MonoObject>, md: Mode, next0: Handle): map<Handle, Slot>
  {
    map h | h in objects && h >= next0 :: Slot(md, objects[h].entityId, objects[h].className)
  }

  /** Rebound states own their handles once each handle pinned since `next0` is
      recorded against the binding its object names. */
  lemma ReboundOwned(e: map<Binding, InstanceState>, cls: map<string, ScriptClass>, next0: Handle,
                     objects: map<Handle, MonoObject>, prior: map<Binding, map<string, Field>>,
                     owners: map<Handle, Slot>)
    requires ReboundAs(e, cls, next0, objects, prior)
    ensures OwnedBy(HandlesIn(e), EditMode, objects, owners + SlotsAbove(objects, EditMode, next0))
  {
    var t := HandlesIn(e);
    forall p | p in t
      ensures t[p] in objects && t[p] in owners + SlotsAbove(objects, EditMode, next0)
      ensures (owners + SlotsAbove(objects, EditMode, next0))[t[p]] == Slot(EditMode, p.0, p.1)
    {
      assert e[p].handle == t[p];
    }
  }

  /** Every handle bound in the table `t` of mode `md` is live in `objects` and
      was issued for its own position. */
  ghost predicate OwnedBy(t: map<Binding, Handle>, md: Mode, objects: map<Handle, MonoObject>, owners: map<Handle, Slot>)
  {
    forall p | p in t :: t[p] in objects && t[p] in owners && owners[t[p]] == Slot(md, p.0, p.1)
  }

  /** Owned handles are distinct per position. */
  lemma OwnedByDistinct(t: map<Binding, Handle>, md: Mode, objects: map<Handle, MonoObject>, owners: map<Handle, Slot>)
    requires OwnedBy(t, md, objects, owners)
    ensures forall p, q | p in t && q in t && p != q :: t[p] != t[q]
  {
  }

  /** Every handle the table records is owned by a binding of mode `md`. */
  lemma OwnedByModes(t: map<Binding, Handle>, md: Mode, objects: map<Handle, MonoObject>, owners: map<Handle, Slot>)
    requires OwnedBy(t, md, objects, owners)
    ensures forall h | h in t.Values :: h in owners && owners[h].mode == md
  {
    forall h | h in t.Values ensures h in owners && owners[h].mode == md {
      var p :| p in t && t[p] == h;
    }
  }

  /** Binding a handle that was not live keeps the discipline. */
  lemma OwnedByBind(t: map<Binding, Handle>, md: Mode, objects: map<Handle, MonoObject>, owners: map<Handle, Slot>,
                    p: Binding, h: Handle, obj: MonoObject)
    requires OwnedBy(t, md, objects, owners) && h !in objects
    ensures OwnedBy(t[p := h], md, objects[h := obj], owners[h := Slot(md, p.0, p.1)])
  {
  }

  /** Issuing a new handle for another position keeps the discipline. */
  lemma OwnedByExtend(t: map<Binding, Handle>, md: Mode, objects: map<Handle, MonoObject>, owners: map<Handle, Slot>,
                      h: Handle, obj: MonoObject, s: Slot)
    requires OwnedBy(t, md, objects, owners) && h !in objects
    ensures OwnedBy(t, md, objects[h := obj], owners[h := s])
  {
  }

  /** Unbinding a position and releasing its handle keeps the discipline. */
  lemma OwnedByUnbind(t: map<Binding, Handle>, md: Mode, objects: map<Handle, MonoObject>, owners: map<Handle, Slot>, p: Binding)
    requires OwnedBy(t, md, objects, owners) && p in t
    ensures OwnedBy(t - {p}, md, objects - {t[p]}, owners)
  {
    OwnedByDistinct(t, md, objects, owners);
  }

  /** Pinning more objects and recording slots only for handles above every
      handle of `t` keeps `t` owned. */
  lemma OwnedByGrow(t: map<Binding, Handle>, md: Mode, objects0: map<Handle, MonoObject>,
                    objects: map<Handle, MonoObject>, owners: map<Handle, Slot>, extra: map<Handle, Slot>, next0: Handle)
    requires OwnedBy(t, md, objects0, owners) && Extends(objects0, objects)
    requires forall h | h in objects0 :: h < next0
    requires forall h | h in extra :: h >= next0
    ensures OwnedBy(t, md, objects, owners + extra)
  {
  }

  /** Releasing handles owned by the other map keeps the discipline. */
  lemma OwnedByRelease(t: map<Binding, Handle>, md: Mode, objects: map<Handle, MonoObject>, owners: map<Handle, Slot>, gone: set<Handle>)
    requires OwnedBy(t, md, objects, owners)
    requires forall h | h in gone && h in owners :: owners[h].mode != md
    ensures OwnedBy(t, md, objects - gone, owners)
  {
  }

  // Solver hints: set and map identities that the engine's methods use, most of
  // them at each step of a loop. Dafny proves each one unaided; they are stated
  // as lemmas so that the methods' own, much larger proof contexts need not
  // rediscover them.

  /** Releasing `released` and then only adding entries keeps every other handle's object. */
  lemma ReleasedThenExtended(before: map<Handle, MonoObject>, objects0: map<Handle, MonoObject>,
                             after: map<Handle, MonoObject>, released: set<Handle>)
    requires objects0 == before - released && Extends(objects0, after)
    ensures forall h | h in before && h !in released :: h in after && after[h] == before[h]
  {
  }

  /** Releasing `released` and then issuing exactly `issued` leaves the handles
      of `before` outside `released`, together with `issued`. */
  lemma ReleasedThenIssued(before: map<Handle, MonoObject>, objects0: map<Handle, MonoObject>,
                           after: map<Handle, MonoObject>, released: set<Handle>, issued: set<Handle>)
    requires objects0 == before - released && after.Keys == objects0.Keys + issued
    ensures after.Keys == (before.Keys - released) + issued
  {
  }

  /** One step of a loop that moves `p` from the positions to do to those done. */
  lemma Step(all: set<Binding>, todo: set<Binding>, done: set<Binding>, base: set<Binding>, p: Binding)
    requires p in todo && todo <= all && done == all - todo
    ensures done + {p} == all - (todo - {p}) && todo - {p} <= all
    ensures base + done + {p} == base + (done + {p})
  {
  }

  /** When nothing is left to do, every position is done. */
  lemma Finished(all: set<Binding>, done: set<Binding>)
    requires done == all - {}
    ensures done == all
  {
  }

  /** Binding `p` adds exactly `p` to the keys. */
  lemma KeysBind(m: InstanceMap, p: Binding, inst: ScriptInstance)
    ensures m[p := inst].Keys == m.Keys + {p}
  {
  }

  /** At every position, a table records exactly its values. */
  lemma HandlesAtAll(t: map<Binding, Handle>)
    ensures HandlesAt(t, t.Keys) == t.Values
  {
  }

  /** Releasing two sets in turn releases their union. */
  lemma SubtractTwice(m: map<Handle, MonoObject>, a: set<Handle>, b: set<Handle>)
    ensures m - a - b == m - (a + b)
  {
  }

  /** With nothing pending, nothing is taken out. */
  lemma MinusNone<V>(m: map<Binding, V>)
    ensures m - {} == m
  {
  }
}
