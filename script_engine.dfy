/** The script engine: the class table discovered from the client assembly, the
    edit-mode and runtime-mode instance maps, the selector of the active map, and
    the operations that move instances between them. */
module Engine {
  import opened Common
  import opened Mono
  import opened GC
  import opened ScriptClasses
  import opened ScriptInstances
  import opened InstanceMaps
  import opened Discovery

  class ScriptEngine {
    /** The reference manager shared by all instances. */
    const gc: GCManager
    /** EntityClasses: qualified name to class descriptor. */
    var classes: map<string, ScriptClass>
    /** EntityInstances: the edit-mode bindings. */
    var editInstances: InstanceMap
    /** EntityRuntimeInstances: the runtime-mode bindings. */
    var runtimeInstances: InstanceMap
    var mode: Mode
    /** The handle each edit-mode binding holds. */
    ghost var editTable: map<Binding, Handle>
    /** The handle each runtime-mode binding holds. */
    ghost var runtimeTable: map<Binding, Handle>
    /** The position each bound instance's handle was issued for. */
    ghost var owners: map<Handle, Slot>

    /** The map CurrentEntityInstanceMap points to. */
    function Active(): InstanceMap
      reads this`mode, this`editInstances, this`runtimeInstances
    {
      if mode == EditMode then editInstances else runtimeInstances
    }

    /** Every descriptor is registered under its own qualified name and its
        property cache is coherent. */
    ghost predicate ClassTableValid()
      reads this`classes, classes.Values`properties
    {
      forall k | k in classes :: classes[k].QualifiedName() == k && classes[k].CacheCoherent()
    }

    /** The ghost tables mirror both instance maps, and every bound handle is live
        in `objects` and owned by the position it is bound at. */
    ghost predicate Tables(objects: map<Handle, MonoObject>)
      reads this`editInstances, this`runtimeInstances, this`editTable, this`runtimeTable, this`owners
      reads editInstances.Values`handle, runtimeInstances.Values`handle
    {
      && Mirror(editInstances, editTable)
      && Mirror(runtimeInstances, runtimeTable)
      && OwnedBy(editTable, EditMode, objects, owners)
      && OwnedBy(runtimeTable, RuntimeMode, objects, owners)
    }

    ghost predicate Valid()
      reads this`classes, this`editInstances, this`runtimeInstances, this`editTable, this`runtimeTable, this`owners
      reads gc`objects, gc`next, classes.Values`properties, editInstances.Values`handle, runtimeInstances.Values`handle
    {
      gc.Valid() && ClassTableValid() && Tables(gc.objects)
    }

    /** No instance is bound in both maps. */
    lemma MapsDisjoint()
      requires Valid()
      ensures editInstances.Values !! runtimeInstances.Values
    {
      OwnedByModes(editTable, EditMode, gc.objects, owners);
      OwnedByModes(runtimeTable, RuntimeMode, gc.objects, owners);
      forall x | x in editInstances.Values
        ensures x !in runtimeInstances.Values
      {
        var p :| p in editInstances && editInstances[p] == x;
        assert x.handle in editTable.Values by {
          assert editTable[p] == x.handle;
        }
        MirrorAbsent(runtimeInstances, runtimeTable, x);
      }
    }

    /** No handle is bound in both the edit and the runtime map. */
    lemma HandleSetsDisjoint()
      requires Valid()
      ensures HandlesOf(editInstances) !! HandlesOf(runtimeInstances)
    {
      OwnedByModes(editTable, EditMode, gc.objects, owners);
      OwnedByModes(runtimeTable, RuntimeMode, gc.objects, owners);
      MirrorHandles(editInstances, editTable);
      MirrorHandles(runtimeInstances, runtimeTable);
    }

    /** Handle discipline: within each map, no two positions share an instance
        or a handle, and no handle is bound in both maps. */
    lemma BindingsDistinct()
      requires Valid()
      ensures InjectiveBindings(editInstances) && InjectiveBindings(runtimeInstances)
      ensures DistinctHandles(editInstances) && DistinctHandles(runtimeInstances)
      ensures HandlesOf(editInstances) !! HandlesOf(runtimeInstances)
    {
      OwnedByDistinct(editTable, EditMode, gc.objects, owners);
      OwnedByDistinct(runtimeTable, RuntimeMode, gc.objects, owners);
      MirrorInjective(editInstances, editTable);
      MirrorInjective(runtimeInstances, runtimeTable);
      HandleSetsDisjoint();
    }

    /** HasClass: whether a descriptor is registered under exactly that name. */
    function HasClass(className: string): (b: bool)
      reads this`classes
      ensures b <==> className in classes
    {
      className in classes
    }

    /** GetInstance: the instance bound at [id][name] of the active map; `at`
        fails when there is none. */
    function GetInstance(id: UUID, name: string): (r: Result<ScriptInstance>)
      reads this`mode, this`editInstances, this`runtimeInstances
      ensures r.Ok? <==> (id, name) in Active()
      ensures r.Ok? ==> r.value == Active()[(id, name)]
      ensures r.Err? ==> r.error == InstanceNotFound(id, name)
    {
      var m := Active();
      if (id, name) in m then Ok(m[(id, name)]) else Err(InstanceNotFound(id, name))
    }

    /** GetFields: the field snapshot of the active instance at [id][className]. */
    function GetFields(id: UUID, className: string): (r: Result<map<string, Field>>)
      reads this`mode, this`editInstances, this`runtimeInstances, editInstances.Values`fields, runtimeInstances.Values`fields
      ensures GetInstance(id, className).Ok? ==> r == Ok(GetInstance(id, className).value.fields)
      ensures GetInstance(id, className).Err? ==> r == Err(GetInstance(id, className).error)
    {
      var inst := GetInstance(id, className);
      if inst.Err? then Err(inst.error) else Ok(inst.value.fields)
    }

    /** Binds `inst`, whose handle `objects` does not hold yet, at `p` of the edit
        map, recording its handle and its owner. */
    method AdoptEdit(p: Binding, inst: ScriptInstance, ghost objects: map<Handle, MonoObject>, ghost obj: MonoObject)
      requires Tables(objects) && inst.handle !in objects
      modifies this`editInstances, this`editTable, this`owners
      ensures Tables(objects[inst.handle := obj])
      ensures editInstances == old(editInstances)[p := inst]
    {
      var slot := Slot(EditMode, p.0, p.1);
      MirrorBind(editInstances, editTable, p, inst);
      OwnedByBind(editTable, EditMode, objects, owners, p, inst.handle, obj);
      OwnedByExtend(runtimeTable, RuntimeMode, objects, owners, inst.handle, obj, slot);
      editInstances := editInstances[p := inst];
      editTable := editTable[p := inst.handle];
      owners := owners[inst.handle := slot];
    }

    /** Binds `inst`, whose handle `objects` does not hold yet, at `p` of the
        runtime map, recording its handle and its owner. */
    method AdoptRuntime(p: Binding, inst: ScriptInstance, ghost objects: map<Handle, MonoObject>, ghost obj: MonoObject)
      requires Tables(objects) && inst.handle !in objects
      modifies this`runtimeInstances, this`runtimeTable, this`owners
      ensures Tables(objects[inst.handle := obj])
      ensures runtimeInstances == old(runtimeInstances)[p := inst]
    {
      var slot := Slot(RuntimeMode, p.0, p.1);
      MirrorBind(runtimeInstances, runtimeTable, p, inst);
      OwnedByBind(runtimeTable, RuntimeMode, objects, owners, p, inst.handle, obj);
      OwnedByExtend(editTable, EditMode, objects, owners, inst.handle, obj, slot);
      runtimeInstances := runtimeInstances[p := inst];
      runtimeTable := runtimeTable[p := inst.handle];
      owners := owners[inst.handle := slot];
    }

    /** CreateInstance: `at` fails for an unknown class; otherwise a new instance
        is bound at [id][name] of the active map only and returned. */
    method CreateInstance(id: UUID, name: string) returns (r: Result<ScriptInstance>)
      requires Valid()
      modifies this`editInstances, this`runtimeInstances, this`editTable, this`runtimeTable, this`owners, gc`objects, gc`next
      ensures Valid()
      ensures name !in classes ==>
                && r == Err(ClassNotFound(name)) && gc.objects == old(gc.objects)
                && editInstances == old(editInstances) && runtimeInstances == old(runtimeInstances)
      ensures name in classes ==>
                && r.Ok? && fresh(r.value)
                && Active() == old(Active())[(id, name) := r.value]
                && (mode == EditMode ==> runtimeInstances == old(runtimeInstances))
                && (mode == RuntimeMode ==> editInstances == old(editInstances))
                && r.value.scriptClass == classes[name] && r.value.LifecycleBoundTo(classes[name])
                && r.value.handle == old(gc.next) && r.value.handle !in old(gc.objects)
                && gc.objects == old(gc.objects)[r.value.handle := MonoObject(name, id)]
                && r.value.fields == Reconciled(classes[name].fields, map[], r.value.handle)
    {
      if name !in classes {
        return Err(ClassNotFound(name));
      }
      var cls := classes[name];
      ghost var objects := gc.objects;
      var inst := new ScriptInstance(cls, id, gc);
      BindActive((id, name), inst, objects, MonoObject(cls.QualifiedName(), id));
      r := Ok(inst);
    }

    /** Binds `inst`, whose handle `objects` does not hold yet, at `p` of the
        active map only. */
    method BindActive(p: Binding, inst: ScriptInstance, ghost objects: map<Handle, MonoObject>, ghost obj: MonoObject)
      requires Tables(objects) && inst.handle !in objects
      modifies this`editInstances, this`runtimeInstances, this`editTable, this`runtimeTable, this`owners
      ensures Tables(objects[inst.handle := obj])
      ensures Active() == old(Active())[p := inst]
      ensures mode == EditMode ==> runtimeInstances == old(runtimeInstances)
      ensures mode == RuntimeMode ==> editInstances == old(editInstances)
    {
      if mode == EditMode {
        AdoptEdit(p, inst, objects, obj);
      } else {
        AdoptRuntime(p, inst, objects, obj);
      }
    }

    /** Init: an empty engine and a fresh reference manager, followed by the
        first ReloadAppDomain, which discovers the classes of `image`. */
    constructor (image: seq<TypeDef>)
      ensures Valid() && fresh(gc)
      ensures mode == EditMode && editInstances == map[] && runtimeInstances == map[]
      ensures classes.Keys == Discover(image).Keys
      ensures forall k | k in classes :: Describes(classes[k], Discover(image)[k])
    {
      gc := new GCManager();
      classes := map[];
      editInstances := map[];
      runtimeInstances := map[];
      mode := EditMode;
      editTable := map[];
      runtimeTable := map[];
      owners := map[];
      new;
      var ok := ReloadAppDomain(image);
    }

    /** Erases `p` from the edit map; the handle it held, if any, may then leave
        `objects`. */
    method DropEdit(p: Binding, ghost objects: map<Handle, MonoObject>)
      requires Tables(objects)
      modifies this`editInstances, this`editTable
      ensures editInstances == old(editInstances) - {p}
      ensures p in old(editInstances) ==> Tables(objects - {old(editInstances)[p].handle})
      ensures p !in old(editInstances) ==> Tables(objects)
    {
      if p in editTable {
        OwnedByUnbind(editTable, EditMode, objects, owners, p);
        OwnedByRelease(runtimeTable, RuntimeMode, objects, owners, {editTable[p]});
      } else {
        assert editTable - {p} == editTable;
      }
      MirrorUnbind(editInstances, editTable, p);
      editInstances := editInstances - {p};
      editTable := editTable - {p};
    }

    /** Erases `p` from the runtime map; the handle it held, if any, may then
        leave `objects`. */
    method DropRuntime(p: Binding, ghost objects: map<Handle, MonoObject>)
      requires Tables(objects)
      modifies this`runtimeInstances, this`runtimeTable
      ensures runtimeInstances == old(runtimeInstances) - {p}
      ensures p in old(runtimeInstances) ==> Tables(objects - {old(runtimeInstances)[p].handle})
      ensures p !in old(runtimeInstances) ==> Tables(objects)
    {
      if p in runtimeTable {
        OwnedByUnbind(runtimeTable, RuntimeMode, objects, owners, p);
        OwnedByRelease(editTable, EditMode, objects, owners, {runtimeTable[p]});
      } else {
        assert runtimeTable - {p} == runtimeTable;
      }
      MirrorUnbind(runtimeInstances, runtimeTable, p);
      runtimeInstances := runtimeInstances - {p};
      runtimeTable := runtimeTable - {p};
    }

    /** Destroys the instance bound at `p` of the edit map, if any (releasing
        its handle), and erases `p` from that map. */
    method EraseEdit(p: Binding)
      requires Valid()
      modifies this`editInstances, this`editTable, gc`objects, gc`next
      ensures Valid()
      ensures editInstances == old(editInstances) - {p}
      ensures p in old(editInstances) ==> gc.objects == old(gc.objects) - {old(editInstances[p].handle)}
      ensures p !in old(editInstances) ==> gc.objects == old(gc.objects)
    {
      ghost var objects := gc.objects;
      if p in editInstances {
        editInstances[p].Destroy(gc);
      }
      DropEdit(p, objects);
    }

    /** Destroys the instance bound at `p` of the runtime map, if any (releasing
        its handle), and erases `p` from that map. */
    method EraseRuntime(p: Binding)
      requires Valid()
      modifies this`runtimeInstances, this`runtimeTable, gc`objects, gc`next
      ensures Valid()
      ensures runtimeInstances == old(runtimeInstances) - {p}
      ensures p in old(runtimeInstances) ==> gc.objects == old(gc.objects) - {old(runtimeInstances[p].handle)}
      ensures p !in old(runtimeInstances) ==> gc.objects == old(gc.objects)
    {
      ghost var objects := gc.objects;
      if p in runtimeInstances {
        runtimeInstances[p].Destroy(gc);
      }
      DropRuntime(p, objects);
    }

    /** RemoveInstance: destroys the instance bound at [id][name] of the active map,
        if any (releasing its handle), and erases the name from that entity's map. */
    method RemoveInstance(id: UUID, name: string)
      requires Valid()
      modifies this`editInstances, this`runtimeInstances, this`editTable, this`runtimeTable, gc`objects, gc`next
      ensures Valid()
      ensures Active() == old(Active()) - {(id, name)}
      ensures mode == EditMode ==> runtimeInstances == old(runtimeInstances)
      ensures mode == RuntimeMode ==> editInstances == old(editInstances)
      ensures (id, name) in old(Active()) ==>
                gc.objects == old(gc.objects) - {old(Active()[(id, name)].handle)}
      ensures (id, name) !in old(Active()) ==> gc.objects == old(gc.objects)
    {
      if mode == EditMode {
        EraseEdit((id, name));
      } else {
        EraseRuntime((id, name));
      }
    }

    /** Runs every instance's destructor: each bound handle of `m`, as `t` records them, is released. */
    method DestroyInstances(m: InstanceMap, ghost t: map<Binding, Handle>)
      requires gc.Valid() && Mirror(m, t)
      modifies gc`objects, gc`next
      ensures gc.Valid() && gc.next == old(gc.next)
      ensures gc.objects == old(gc.objects) - t.Values
    {
      var todo := m.Keys;
      while todo != {}
        invariant todo <= t.Keys
        invariant gc.Valid() && gc.next == old(gc.next)
        invariant gc.objects == old(gc.objects) - HandlesAt(t, t.Keys - todo)
        decreases todo
      {
        var p :| p in todo;
        ghost var done := t.Keys - todo;
        HandlesAtStep(t, done, todo, p);
        SubtractTwice(old(gc.objects), HandlesAt(t, done), {t[p]});
        m[p].Destroy(gc);
        todo := todo - {p};
      }
      HandlesAtAll(t);
    }

    /** Releases every bound handle of `m`, as `t` records them, without destroying the instances. */
    method ReleaseHandles(m: InstanceMap, ghost t: map<Binding, Handle>)
      requires gc.Valid() && Mirror(m, t)
      modifies gc`objects, gc`next
      ensures gc.Valid() && gc.next == old(gc.next)
      ensures gc.objects == old(gc.objects) - t.Values
    {
      var todo := m.Keys;
      while todo != {}
        invariant todo <= t.Keys
        invariant gc.Valid() && gc.next == old(gc.next)
        invariant gc.objects == old(gc.objects) - HandlesAt(t, t.Keys - todo)
        decreases todo
      {
        var p :| p in todo;
        ghost var done := t.Keys - todo;
        HandlesAtStep(t, done, todo, p);
        SubtractTwice(old(gc.objects), HandlesAt(t, done), {t[p]});
        gc.ReleaseObjectReference(m[p].handle);
        todo := todo - {p};
      }
      HandlesAtAll(t);
    }

    /** Empties the runtime map and selects the edit map; the handles the runtime
        bindings held may then leave `objects`. */
    method ClearRuntime(ghost objects: map<Handle, MonoObject>)
      requires Tables(objects)
      modifies this`mode, this`runtimeInstances, this`runtimeTable
      ensures mode == EditMode && runtimeInstances == map[]
      ensures Tables(objects - old(runtimeTable.Values))
    {
      OwnedByModes(runtimeTable, RuntimeMode, objects, owners);
      OwnedByRelease(editTable, EditMode, objects, owners, runtimeTable.Values);
      mode := EditMode;
      runtimeInstances := map[];
      runtimeTable := map[];
    }

    /** OnRuntimeEnd: switches back to the edit map, destroys every runtime
        instance and empties the runtime map. Edit-mode bindings keep their live handles. */
    method OnRuntimeEnd()
      requires Valid()
      modifies this`mode, this`runtimeInstances, this`runtimeTable, gc`objects, gc`next
      ensures Valid()
      ensures mode == EditMode && runtimeInstances == map[]
      ensures editInstances == old(editInstances) && classes == old(classes)
      ensures gc.objects == old(gc.objects) - old(HandlesOf(runtimeInstances))
      ensures forall p | p in old(runtimeInstances) :: old(runtimeInstances)[p].handle !in gc.objects
    {
      ghost var objects := gc.objects;
      MirrorHandles(runtimeInstances, runtimeTable);
      DestroyInstances(runtimeInstances, runtimeTable);
      ClearRuntime(objects);
    }

    /** Every position of `done` holds in the runtime map a copy of the edit-mode
        instance bound there: the same class and lifecycle methods, a fresh field
        snapshot, and a handle issued at or after `next0` to a copy of the
        original's managed object carrying the binding's entity identifier. */
    ghost predicate Copied(done: set<Binding>, next0: Handle)
      reads this`editInstances, this`runtimeInstances, gc`objects, editInstances.Values`scriptClass, editInstances.Values`handle
      reads runtimeInstances.Values`scriptClass, runtimeInstances.Values`handle, runtimeInstances.Values`fields, runtimeInstances.Values`onCreate, runtimeInstances.Values`onUpdate, runtimeInstances.Values`onDestroy
    {
      CopiedIn(done, editInstances, runtimeInstances, next0, gc.objects)
    }

    /** Binds the copy `copy` of the edit-mode instance at `p`, whose handle
        `objects` does not hold yet and which refers to `obj`, at `p` of the runtime map. */
    method AdoptCopy(p: Binding, copy: ScriptInstance, ghost done: set<Binding>, ghost next0: Handle,
                     ghost objects: map<Handle, MonoObject>, ghost obj: MonoObject)
      requires Tables(objects) && p in editInstances && p !in done
      requires CopiedIn(done, editInstances, runtimeInstances, next0, objects)
      requires editInstances[p].handle in objects && copy.handle !in objects && copy.handle >= next0
      requires copy.CopyOf(editInstances[p]) && obj == objects[editInstances[p].handle].(entityId := p.0)
      modifies this`runtimeInstances, this`runtimeTable, this`owners
      ensures Tables(objects[copy.handle := obj])
      ensures CopiedIn(done + {p}, editInstances, runtimeInstances, next0, objects[copy.handle := obj])
      ensures runtimeInstances == old(runtimeInstances)[p := copy] && runtimeTable == old(runtimeTable)[p := copy.handle]
    {
      var slot := Slot(RuntimeMode, p.0, p.1);
      MirrorBind(runtimeInstances, runtimeTable, p, copy);
      OwnedByBind(runtimeTable, RuntimeMode, objects, owners, p, copy.handle, obj);
      OwnedByExtend(editTable, EditMode, objects, owners, copy.handle, obj, slot);
      CopiedBind(done, editInstances, runtimeInstances, next0, objects, p, copy);
      runtimeInstances := runtimeInstances[p := copy];
      runtimeTable := runtimeTable[p := copy.handle];
      owners := owners[copy.handle := slot];
    }

    /** Binds at `p` of the runtime map a fresh copy of the edit-mode instance
        bound there, with a new handle to a copy of its managed object. */
    method CopyToRuntime(p: Binding, ghost done: set<Binding>, ghost next0: Handle) returns (copy: ScriptInstance)
      requires gc.Valid() && Tables(gc.objects) && p in editInstances && p !in done
      requires gc.next >= next0 && Copied(done, next0)
      modifies gc`objects, gc`next, this`runtimeInstances, this`runtimeTable, this`owners
      ensures gc.Valid() && Tables(gc.objects)
      ensures gc.next >= next0 && Copied(done + {p}, next0)
      ensures Extends(old(gc.objects), gc.objects) && gc.objects.Keys == old(gc.objects).Keys + {copy.handle}
      ensures runtimeInstances == old(runtimeInstances)[p := copy] && fresh(copy)
      ensures runtimeTable == old(runtimeTable)[p := copy.handle]
    {
      var src := editInstances[p];
      assert src.handle == editTable[p];
      copy := new ScriptInstance.Copy(src, p.0, gc);
      ghost var obj := old(gc.objects)[src.handle].(entityId := p.0);
      ExtendsIssue(old(gc.objects), copy.handle, obj);
      AdoptCopy(p, copy, done, next0, old(gc.objects), obj);
    }

    /** OnRuntimeBegin: switches to the runtime map and binds there, for every
        edit-mode binding, a fresh copy of that instance; the edit map is untouched.
        The copies' handles are issued during the call, so none was live before. */
    method OnRuntimeBegin()
      requires Valid()
      modifies this`mode, this`runtimeInstances, this`runtimeTable, this`owners, gc`objects, gc`next
      ensures Valid()
      ensures mode == RuntimeMode
      ensures editInstances == old(editInstances) && classes == old(classes)
      ensures runtimeInstances.Keys == old(runtimeInstances).Keys + editInstances.Keys
      ensures forall q | q in old(runtimeInstances) && q !in editInstances ::
                runtimeInstances[q] == old(runtimeInstances)[q]
      ensures Copied(editInstances.Keys, old(gc.next))
      ensures forall q | q in editInstances :: fresh(runtimeInstances[q])
      ensures Extends(old(gc.objects), gc.objects)
      ensures gc.objects.Keys == old(gc.objects).Keys + (set q | q in editInstances :: runtimeInstances[q].handle)
    {
      ghost var E, R := editInstances, runtimeInstances;
      mode := RuntimeMode;
      var todo := editInstances.Keys;
      ghost var done: set<Binding> := {};
      while todo != {}
        invariant done == E.Keys - todo && todo <= E.Keys
        invariant mode == RuntimeMode
        invariant gc.Valid() && Tables(gc.objects)
        invariant gc.next >= old(gc.next) && Copied(done, old(gc.next))
        invariant Extends(old(gc.objects), gc.objects)
        invariant gc.objects.Keys == old(gc.objects).Keys + HandlesAt(runtimeTable, done)
        invariant runtimeInstances.Keys == R.Keys + done
        invariant forall q | q in R && q !in done :: runtimeInstances[q] == R[q]
        invariant forall q | q in done :: fresh(runtimeInstances[q])
        decreases todo
      {
        var p :| p in todo;
        ghost var objects, before, table := gc.objects, runtimeInstances, runtimeTable;
        var copy := CopyToRuntime(p, done, old(gc.next));
        KeysBind(before, p, copy);
        IssuedBind(old(gc.objects), objects, gc.objects, table, done, p, copy.handle);
        ExtendsTrans(old(gc.objects), objects, gc.objects);
        Step(E.Keys, todo, done, R.Keys, p);
        todo := todo - {p};
        done := done + {p};
      }
      Finished(E.Keys, done);
      MirrorHandlesAt(runtimeInstances, runtimeTable, done);
    }

    /** A play session that starts and ends again: OnRuntimeBegin followed by
        OnRuntimeEnd leaves edit mode active with an empty runtime map, and every
        edit-mode instance in the state it had, its handle still live and
        referring to the same managed object. */
    method RuntimeRoundTrip()
      requires Valid()
      modifies this`mode, this`runtimeInstances, this`runtimeTable, this`owners, gc`objects, gc`next
      ensures Valid() && mode == EditMode && runtimeInstances == map[]
      ensures editInstances == old(editInstances)
      ensures forall q | q in editInstances :: editInstances[q].State() == old(editInstances[q].State())
      ensures forall q | q in editInstances ::
                editInstances[q].handle in gc.objects && gc.objects[editInstances[q].handle] == old(gc.objects)[editInstances[q].handle]
    {
      ghost var objects0 := gc.objects;
      OnRuntimeBegin();
      HandleSetsDisjoint();
      MirrorHandles(editInstances, editTable);
      ghost var objects1, copies := gc.objects, HandlesOf(runtimeInstances);
      OnRuntimeEnd();
      KeptThroughRuntime(objects0, objects1, gc.objects, editTable, copies);
    }

    /** The descriptor `c` was built for the type `t`. */
    ghost predicate Describes(c: ScriptClass, t: TypeDef)
    {
      && c.classNamespace == t.namespace && c.className == t.name && c.monoClass == t
      && c.fields == PublicFields(t.fields)
    }

    /** LoadAssemblyClasses: walks the type table and registers a fresh descriptor
        for each type whose parent is ArcEngine.Entity; other entries are kept. */
    method LoadAssemblyClasses(image: seq<TypeDef>)
      modifies this`classes
      ensures forall k :: k in classes <==> k in old(classes) || k in Discover(image)
      ensures forall k | k in old(classes) && k !in Discover(image) :: classes[k] == old(classes)[k]
      ensures forall k | k in Discover(image) ::
                fresh(classes[k]) && Describes(classes[k], Discover(image)[k]) && classes[k].properties == map[]
    {
      var i := 0;
      while i < |image|
        invariant 0 <= i <= |image|
        invariant forall k :: k in classes <==> k in old(classes) || k in Discover(image[..i])
        invariant forall k | k in old(classes) && k !in Discover(image[..i]) :: classes[k] == old(classes)[k]
        invariant forall k | k in Discover(image[..i]) ::
                    && fresh(classes[k]) && Describes(classes[k], Discover(image[..i])[k])
                    && classes[k].properties == map[]
      {
        var t := image[i];
        assert image[..i + 1][..i] == image[..i];
        if t.parent.Some? {
          var parent := t.parent.value;
          var isEntity := parent.name == "Entity" && parent.namespace == "ArcEngine";
          if isEntity {
            var c := new ScriptClass(t.namespace, t.name, t);
            classes := classes[FullName(t) := c];
          }
        }
        i := i + 1;
      }
      assert image[..i] == image;
    }

    /** LoadClientAssembly: clears the class table, then discovers the classes of
        `image`, so the table holds the current assembly's classes only. */
    method LoadClientAssembly(image: seq<TypeDef>)
      modifies this`classes
      ensures classes.Keys == Discover(image).Keys
      ensures forall k | k in classes ::
                fresh(classes[k]) && Describes(classes[k], Discover(image)[k]) && classes[k].properties == map[]
      ensures ClassTableValid()
    {
      classes := map[];
      LoadAssemblyClasses(image);
      DiscoverRows(image);
    }

    /** The state of the rebuild loop over the edit map `e` with `todo` left to
        do: every instance of `e` is in the state `current` records, `rebuilt`
        binds every other position to its own instance, and those states are
        rebound against `cls`; the instances still to do keep their snapshots
        `prior`, and the runtime map `r`, with table `rt`, is untouched. */
    ghost predicate Rebuilding(e: InstanceMap, r: InstanceMap, rt: map<Binding, Handle>, cls: map<string, ScriptClass>,
                               todo: set<Binding>, rebuilt: InstanceMap, current: map<Binding, InstanceState>,
                               prior: map<Binding, map<string, Field>>, next0: Handle,
                               objects0: map<Handle, MonoObject>)
      reads gc`objects, gc`next, r.Values`handle
      reads e.Values`scriptClass, e.Values`handle, e.Values`fields, e.Values`onCreate, e.Values`onUpdate, e.Values`onDestroy
    {
      && todo <= e.Keys && rebuilt == e - todo
      && gc.Valid() && gc.next >= next0 && GrowsAbove(objects0, gc.objects, next0)
      && gc.objects.Keys == objects0.Keys + HandlesIn(current - todo).Values
      && Mirror(r, rt) && Holds(e, current)
      && (forall q | q in todo :: q in prior && current[q].fields == prior[q])
      && ReboundAs(current - todo, cls, next0, gc.objects, prior)
    }

    /** One step of the rebuild: the edit-mode instance `inst` at `p`, not
        rebuilt yet, is invalidated against `c`, the class now registered under
        its name, and added to the rebuilt map. */
    method Rebind(p: Binding, inst: ScriptInstance, c: ScriptClass, todo: set<Binding>, rebuilt: InstanceMap,
                  ghost e: InstanceMap, ghost r: InstanceMap, ghost rt: map<Binding, Handle>,
                  ghost cls: map<string, ScriptClass>, ghost current: map<Binding, InstanceState>,
                  ghost prior: map<Binding, map<string, Field>>, ghost next0: Handle, ghost objects0: map<Handle, MonoObject>)
      returns (grown: InstanceMap, ghost now: map<Binding, InstanceState>)
      requires Rebuilding(e, r, rt, cls, todo, rebuilt, current, prior, next0, objects0)
      requires InjectiveBindings(e) && e.Values !! r.Values
      requires p in todo && e[p] == inst && p.1 in cls && cls[p.1] == c && c.QualifiedName() == p.1
      modifies inst`scriptClass, inst`handle, inst`fields, inst`onCreate, inst`onUpdate, inst`onDestroy, gc`objects, gc`next
      ensures Rebuilding(e, r, rt, cls, todo - {p}, grown, now, prior, next0, objects0)
    {
      ghost var others := e - {p};
      InjectiveDistinct(e, p);
      HoldsRemove(e, current, p);
      ghost var objects := gc.objects;
      Reinstantiate(inst, c, p.0, others, current - {p}, r, rt);
      HoldsReplace(e, current, p, inst);
      ReboundBind(current - todo, cls, next0, objects, prior, p, inst);
      GrowsAboveIssue(objects0, objects, next0, inst.handle, MonoObject(p.1, p.0));
      IssuedInBind(objects0, objects, gc.objects, current - todo, p, inst.State());
      grown := rebuilt[p := inst];
      now := current[p := inst.State()];
      MinusBind(e, todo, p, inst);
      MinusBind(current, todo, p, inst.State());
    }

    /** Invalidate on `inst`, which neither the instances of `others` nor the
        runtime map `r` share: their states are kept. */
    method Reinstantiate(inst: ScriptInstance, c: ScriptClass, id: UUID,
                         ghost others: InstanceMap, ghost states: map<Binding, InstanceState>,
                         ghost r: InstanceMap, ghost rt: map<Binding, Handle>)
      requires gc.Valid() && Holds(others, states) && inst !in others.Values
      requires Mirror(r, rt) && inst !in r.Values
      modifies inst`scriptClass, inst`handle, inst`fields, inst`onCreate, inst`onUpdate, inst`onDestroy, gc`objects, gc`next
      ensures gc.Valid() && Holds(others, states) && Mirror(r, rt)
      ensures inst.scriptClass == c && inst.LifecycleBoundTo(c)
      ensures inst.handle == old(gc.next) && inst.handle !in old(gc.objects) && gc.next == old(gc.next) + 1
      ensures gc.objects == old(gc.objects)[inst.handle := MonoObject(c.QualifiedName(), id)]
      ensures inst.fields == Reconciled(c.fields, old(inst.fields), inst.handle)
    {
      inst.Invalidate(c, id, gc);
    }

    /** The rebuild loop of ReloadAppDomain: every edit-mode instance, in turn, is
        invalidated against the class now registered under its name and bound at
        its position of a new map; `at` fails, ending the rebuild with `ok` false,
        at a binding whose class is no longer registered. `expected` records the
        rebound states. */
    method RebuildEditMap(ghost prior: map<Binding, map<string, Field>>, ghost next0: Handle)
      returns (ok: bool, rebuilt: InstanceMap, ghost expected: map<Binding, InstanceState>)
      requires gc.Valid() && gc.next >= next0 && forall k | k in classes :: classes[k].QualifiedName() == k
      requires InjectiveBindings(editInstances) && prior == FieldsOf(editInstances)
      requires editInstances.Values !! runtimeInstances.Values && Mirror(runtimeInstances, runtimeTable)
      modifies editInstances.Values`scriptClass, editInstances.Values`handle, editInstances.Values`fields, editInstances.Values`onCreate, editInstances.Values`onUpdate, editInstances.Values`onDestroy, gc`objects, gc`next
      ensures gc.Valid() && GrowsAbove(old(gc.objects), gc.objects, next0)
      ensures Mirror(runtimeInstances, runtimeTable)
      ensures ok <==> old(Registered(editInstances, classes))
      ensures ok ==> rebuilt == editInstances && Holds(rebuilt, expected)
      ensures ok ==> ReboundAs(expected, classes, next0, gc.objects, prior)
      ensures ok ==> gc.objects.Keys == old(gc.objects).Keys + HandlesIn(expected).Values
    {
      var instances, table := editInstances, classes;
      ghost var R, RT, objects0 := runtimeInstances, runtimeTable, gc.objects;
      var done: InstanceMap := map[];
      ghost var states := States(instances);
      var todo := instances.Keys;
      NoneIssued(objects0, states, todo);
      while todo != {}
        invariant Rebuilding(instances, R, RT, table, todo, done, states, prior, next0, objects0)
        decreases todo
      {
        var p :| p in todo;
        if p.1 !in table {
          return false, done, states;
        }
        done, states := Rebind(p, instances[p], table[p.1], todo, done, instances, R, RT, table, states, prior, next0,
                               objects0);
        todo := todo - {p};
      }
      MinusNone(instances);
      MinusNone(states);
      return true, done, states;
    }

    /** ReloadAppDomain: releases every edit-mode handle, rebuilds the class table
        from `image`, then rebinds every edit-mode binding to the same instance,
        invalidated against its new class. A bound class missing from the new
        table makes `at` fail: the reload stops with `ok` false, the edit map keeps
        its bindings and the active map is not reset. The runtime map is outside
        the frame, so it is left as it was. */
    method ReloadAppDomain(image: seq<TypeDef>) returns (ok: bool)
      requires Valid()
      modifies this`classes, this`editInstances, this`editTable, this`mode, this`owners, gc`objects, gc`next
      modifies editInstances.Values`scriptClass, editInstances.Values`handle, editInstances.Values`fields, editInstances.Values`onCreate, editInstances.Values`onUpdate, editInstances.Values`onDestroy
      ensures classes.Keys == Discover(image).Keys
      ensures forall k | k in classes :: fresh(classes[k]) && Describes(classes[k], Discover(image)[k])
      ensures old(HandlesOf(editInstances)) !! gc.objects.Keys
      ensures forall h | h in old(gc.objects) && h !in old(HandlesOf(editInstances)) ::
                h in gc.objects && gc.objects[h] == old(gc.objects)[h]
      ensures ok ==> gc.objects.Keys == (old(gc.objects).Keys - old(HandlesOf(editInstances))) + HandlesOf(editInstances)
      ensures ok <==> forall q | q in old(editInstances) :: q.1 in Discover(image)
      ensures editInstances == old(editInstances)
      ensures !ok ==> mode == old(mode)
      ensures ok ==> Valid() && mode == EditMode
      ensures ok ==> ReboundIn(editInstances, classes, old(gc.next), gc.objects, old(FieldsOf(editInstances)))
    {
      ghost var before, released := gc.objects, HandlesOf(editInstances);
      ghost var objects0 := PrepareReload(image);
      ghost var expected;
      ok, expected := FinishReload(objects0, old(FieldsOf(editInstances)), old(gc.next));
      StillReleased(released, objects0, gc.objects, old(gc.next));
      ReleasedThenExtended(before, objects0, gc.objects, released);
      if ok {
        HoldsStates(editInstances, expected);
        HoldsHandles(editInstances, expected);
        ReleasedThenIssued(before, objects0, gc.objects, released, HandlesIn(expected).Values);
      }
    }

    /** The first half of ReloadAppDomain: the edit-mode handles are released and
        the class table is rebuilt from `image`. */
    method PrepareReload(image: seq<TypeDef>) returns (ghost objects0: map<Handle, MonoObject>)
      requires Valid()
      modifies this`classes, gc`objects, gc`next
      ensures classes.Keys == Discover(image).Keys
      ensures forall k | k in classes :: fresh(classes[k]) && Describes(classes[k], Discover(image)[k])
      ensures ClassTableValid() && gc.Valid() && gc.next == old(gc.next) && gc.objects == objects0
      ensures objects0 == old(gc.objects) - HandlesOf(editInstances)
      ensures editTable.Values == HandlesOf(editInstances) && editTable.Values !! objects0.Keys
      ensures forall h | h in editTable.Values :: h < gc.next
      ensures InjectiveBindings(editInstances) && editInstances.Values !! runtimeInstances.Values
      ensures Mirror(runtimeInstances, runtimeTable) && OwnedBy(runtimeTable, RuntimeMode, objects0, owners)
    {
      MapsDisjoint();
      OwnedByDistinct(editTable, EditMode, gc.objects, owners);
      MirrorInjective(editInstances, editTable);
      MirrorHandles(editInstances, editTable);
      OwnedByModes(editTable, EditMode, gc.objects, owners);
      OwnedByRelease(runtimeTable, RuntimeMode, gc.objects, owners, editTable.Values);
      assert forall h | h in editTable.Values :: h < gc.next;
      ReleaseHandles(editInstances, editTable);
      objects0 := gc.objects;
      LoadClientAssembly(image);
    }

    /** The second half of ReloadAppDomain: the rebuild and, when every bound
        class is still registered, the installation of the rebuilt map, whose
        states `expected` records. */
    method FinishReload(ghost objects0: map<Handle, MonoObject>,
                        ghost prior: map<Binding, map<string, Field>>, ghost next0: Handle)
      returns (ok: bool, ghost expected: map<Binding, InstanceState>)
      requires ClassTableValid() && gc.Valid() && gc.next == next0 && gc.objects == objects0
      requires InjectiveBindings(editInstances) && editInstances.Values !! runtimeInstances.Values
      requires prior == FieldsOf(editInstances)
      requires Mirror(runtimeInstances, runtimeTable) && OwnedBy(runtimeTable, RuntimeMode, objects0, owners)
      modifies this`editInstances, this`editTable, this`mode, this`owners, gc`objects, gc`next
      modifies editInstances.Values`scriptClass, editInstances.Values`handle, editInstances.Values`fields, editInstances.Values`onCreate, editInstances.Values`onUpdate, editInstances.Values`onDestroy
      ensures ok <==> old(Registered(editInstances, classes))
      ensures editInstances == old(editInstances)
      ensures !ok ==> mode == old(mode)
      ensures ok ==> Valid() && mode == EditMode
      ensures ok ==> Holds(editInstances, expected) && ReboundAs(expected, classes, next0, gc.objects, prior)
      ensures GrowsAbove(objects0, gc.objects, next0)
      ensures ok ==> gc.objects.Keys == objects0.Keys + HandlesIn(expected).Values
    {
      var rebuilt: InstanceMap;
      ok, rebuilt, expected := RebuildEditMap(prior, next0);
      if ok {
        InstallEdit(rebuilt, expected, prior, next0, objects0);
      }
    }

    /** The last step of a successful reload: the rebuilt map becomes the edit map,
        each rebound handle is recorded against the binding its object was created
        for, and edit mode becomes the active one. */
    method InstallEdit(rebuilt: InstanceMap, ghost expected: map<Binding, InstanceState>,
                       ghost prior: map<Binding, map<string, Field>>, ghost next0: Handle,
                       ghost objects0: map<Handle, MonoObject>)
      requires gc.Valid() && ClassTableValid()
      requires Mirror(runtimeInstances, runtimeTable) && OwnedBy(runtimeTable, RuntimeMode, objects0, owners)
      requires (forall h | h in objects0 :: h < next0) && GrowsAbove(objects0, gc.objects, next0)
      requires Holds(rebuilt, expected) && ReboundAs(expected, classes, next0, gc.objects, prior)
      modifies this`editInstances, this`editTable, this`mode, this`owners
      ensures Valid() && mode == EditMode && editInstances == rebuilt && Holds(editInstances, expected)
    {
      ghost var table := HandlesIn(expected);
      ghost var slots := SlotsAbove(gc.objects, EditMode, next0);
      HoldsMirror(rebuilt, expected);
      ReboundOwned(expected, classes, next0, gc.objects, prior, owners);
      OwnedByGrow(runtimeTable, RuntimeMode, objects0, gc.objects, owners, slots, next0);
      SetEdit(rebuilt, expected, table, owners + slots);
    }

    /** Installs `m`, whose instances are in the states `e`, as the edit map,
        under the handle table `t` and the owner record `w`, and makes edit mode
        the active one. */
    method SetEdit(m: InstanceMap, ghost e: map<Binding, InstanceState>, ghost t: map<Binding, Handle>,
                   ghost w: map<Handle, Slot>)
      requires Holds(m, e)
      modifies this`editInstances, this`editTable, this`mode, this`owners
      ensures editInstances == m && editTable == t && owners == w && mode == EditMode && Holds(m, e)
    {
      editInstances, editTable, owners, mode := m, t, w, EditMode;
    }

    /** ScriptEngine::GetProperty: `at` fails for an unknown class; otherwise the
        class's memoising lookup, which with a coherent cache answers exactly what
        reflection answers. */
    method GetProperty(className: string, propertyName: string) returns (r: Result<Option<PropertyRef>>)
      requires Valid()
      modifies if className in classes then {classes[className]} else {}
      ensures Valid()
      ensures className !in classes ==> r == Err(ClassNotFound(className))
      ensures className in classes ==> r == Ok(classes[className].FindProperty(propertyName))
    {
      if className !in classes {
        return Err(ClassNotFound(className));
      }
      var p := classes[className].GetProperty(className, propertyName);
      r := Ok(p);
    }

    /** ScriptEngine::SetProperty: the setter is invoked only when the handle
        still resolves to a managed object. */
    method SetProperty(handle: Handle, property: PropertyRef, params: seq<Argument>) returns (call: Option<Call>)
      ensures call.Some? <==> handle in gc.objects
      ensures call.Some? ==> call.value == Call(handle, SetterOf(property), params)
    {
      var setter := SetterOf(property);
      var reference := gc.GetReferencedObject(handle);
      call := None;
      if reference.Some? {
        call := Some(Call(handle, setter, params));
      }
    }

    /** Shutdown: destroys every edit-mode instance and clears the class table.
        The edit map itself is not emptied. */
    method Shutdown()
      requires Valid()
      modifies this`classes, gc`objects, gc`next
      ensures gc.objects == old(gc.objects) - old(HandlesOf(editInstances))
      ensures classes == map[]
    {
      MirrorHandles(editInstances, editTable);
      DestroyInstances(editInstances, editTable);
      classes := map[];
    }
  }
}
