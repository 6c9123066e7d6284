/** The script instance: one managed object bound to one entity, its handle,
    its snapshot of typed field values and its lifecycle-method handles. */
module ScriptInstances {
  import opened Common
  import opened Mono
  import opened GC
  import opened ScriptClasses

  /** One entry of an instance's field snapshot: the field's name, its type tag,
      its reflected field, the handle of the owning managed object, and the value
      held natively (None: the native snapshot holds no value for the field; the
      managed object's own value, which this model does not represent, is untouched). */
  datatype Field = Field(name: string, tag: TypeTag, info: FieldInfo, owner: Handle, value: Option<seq<bv8>>)

  /** The snapshot a reload builds for the class fields `classFields` from the
      previous snapshot `prior`, for the object behind `h`. */
  ghost function Reconciled(classFields: map<string, FieldInfo>, prior: map<string, Field>, h: Handle): map<string, Field>
  {
    map n | n in classFields :: ReconciledField(n, classFields[n], prior, h)
  }

  /** A field keeps its previous value exactly when it existed before with the same type tag. */
  function ReconciledField(n: string, f: FieldInfo, prior: map<string, Field>, h: Handle): Field
  {
    var keeps := n in prior && prior[n].tag == f.tag;
    Field(n, f.tag, f, h, if keeps then prior[n].value else None)
  }

  /** Field reconciliation: the new snapshot has exactly the class's field names;
      each entry carries the class's type tag and the new owner handle, and its
      value survives iff the field was present before with the same type tag. */
  lemma ReconciledFieldsMatchClass(classFields: map<string, FieldInfo>, prior: map<string, Field>, h: Handle)
    ensures Reconciled(classFields, prior, h).Keys == classFields.Keys
    ensures forall n | n in classFields ::
              var r := Reconciled(classFields, prior, h)[n];
              && r.name == n && r.tag == classFields[n].tag && r.info == classFields[n] && r.owner == h
              && (n in prior && prior[n].tag == classFields[n].tag ==> r.value == prior[n].value)
              && (!(n in prior && prior[n].tag == classFields[n].tag) ==> r.value == None)
  {
  }

  /** Reconciling again against the same class changes no field value: a reload
      with nothing changed is idempotent on the snapshot. */
  lemma ReconcileIdempotent(classFields: map<string, FieldInfo>, prior: map<string, Field>, h1: Handle, h2: Handle)
    ensures var once := Reconciled(classFields, prior, h1);
            var twice := Reconciled(classFields, once, h2);
            twice.Keys == once.Keys && forall n | n in twice :: twice[n].value == once[n].value
  {
  }

  /** The health/speed reload scenario: an integer field `health` holding a value
      keeps it when the class gains a float field `speed`, which starts with no native value. */
  lemma AddedFieldScenario(h0: Handle, h1: Handle, hundred: seq<bv8>)
    ensures
      var intTag, floatTag := TypeTag(1), TypeTag(2);
      var health := FieldInfo("health", FieldAttrPublic, intTag);
      var speed := FieldInfo("speed", FieldAttrPublic, floatTag);
      var before := map["health" := Field("health", intTag, health, h0, Some(hundred))];
      var after := Reconciled(map["health" := health, "speed" := speed], before, h1);
      after.Keys == {"health", "speed"} && after["health"].value == Some(hundred) && after["speed"].value == None
  {
  }

  /** The loop of ScriptInstance::LoadFields: it visits every class field and
      builds the new snapshot in a fresh map. */
  method ReconcileFields(classFields: map<string, FieldInfo>, prior: map<string, Field>, h: Handle)
    returns (r: map<string, Field>)
    ensures r == Reconciled(classFields, prior, h)
  {
    r := map[];
    var todo := classFields.Keys;
    while todo != {}
      invariant todo <= classFields.Keys
      invariant r.Keys == classFields.Keys - todo
      invariant forall n | n in r :: r[n] == ReconciledField(n, classFields[n], prior, h)
      decreases todo
    {
      var n :| n in todo;
      var f := classFields[n];
      var alreadyPresent := n in prior;
      var sameType := alreadyPresent && prior[n].tag == f.tag;
      if sameType {
        r := r[n := Field(n, f.tag, f, h, prior[n].value)];
      } else {
        r := r[n := Field(n, f.tag, f, h, None)];
      }
      todo := todo - {n};
    }
  }

  /** The signatures under which an instance looks up its lifecycle methods. */
  const OnCreateSignature: string := "OnCreate()"
  const OnUpdateSignature: string := "OnUpdate(single)"
  const OnDestroySignature: string := "OnDestroy()"

  /** The values an instance's fields hold at one moment. */
  datatype InstanceState = InstanceState(scriptClass: ScriptClass, handle: Handle, fields: map<string, Field>,
                                         onCreate: Option<MethodRef>, onUpdate: Option<MethodRef>,
                                         onDestroy: Option<MethodRef>)

  class ScriptInstance {
    var scriptClass: ScriptClass
    var handle: Handle
    var fields: map<string, Field>
    var onCreate: Option<MethodRef>
    var onUpdate: Option<MethodRef>
    var onDestroy: Option<MethodRef>

    /** The instance's fields as a value. */
    ghost function State(): InstanceState
      reads this`scriptClass, this`handle, this`fields, this`onCreate, this`onUpdate, this`onDestroy
    {
      InstanceState(scriptClass, handle, fields, onCreate, onUpdate, onDestroy)
    }

    /** The lifecycle handles are the lookups of OnCreate(), OnUpdate(single)
        and OnDestroy() in `cls`. */
    ghost predicate LifecycleBoundTo(cls: ScriptClass)
      reads this`onCreate, this`onUpdate, this`onDestroy
    {
      && onCreate == cls.FindMethod(OnCreateSignature)
      && onUpdate == cls.FindMethod(OnUpdateSignature)
      && onDestroy == cls.FindMethod(OnDestroySignature)
    }

    /** A copy of `source`: the same class, lifecycle handles looked up in it,
        and a snapshot holding every class field with no value. */
    ghost predicate CopyOf(source: ScriptInstance)
      reads this`scriptClass, this`handle, this`fields, this`onCreate, this`onUpdate, this`onDestroy
      reads source`scriptClass
    {
      scriptClass == source.scriptClass && LifecycleBoundTo(scriptClass)
      && fields == Reconciled(scriptClass.fields, map[], handle)
    }

    /** ScriptInstance(scriptClass, entityID): instantiate and pin a new object,
        run Entity(ulong) with the entity's identifier, cache the lifecycle
        methods and load the (initially empty) field snapshot. */
    constructor (cls: ScriptClass, id: UUID, gc: GCManager)
      requires gc.Valid()
      modifies gc`objects, gc`next
      ensures gc.Valid()
      ensures scriptClass == cls && LifecycleBoundTo(cls)
      ensures handle == old(gc.next) && handle !in old(gc.objects) && gc.next == old(gc.next) + 1
      ensures gc.objects == old(gc.objects)[handle := MonoObject(cls.QualifiedName(), id)]
      ensures fields == Reconciled(cls.fields, map[], handle)
    {
      scriptClass := cls;
      var h := cls.Instantiate(gc);
      handle := h;
      gc.InvokeEntityConstructor(h, id);
      onCreate := cls.FindMethod(OnCreateSignature);
      onUpdate := cls.FindMethod(OnUpdateSignature);
      onDestroy := cls.FindMethod(OnDestroySignature);
      fields := map[];
      new;
      LoadFields();
    }

    /** ScriptInstance(scriptInstance, entityID): share the source's class, clone
        its managed object under a new handle and rerun Entity(ulong). The new
        instance starts with an empty native snapshot, so every snapshot entry
        starts with no value; the cloned object keeps its managed field values. */
    constructor Copy(source: ScriptInstance, id: UUID, gc: GCManager)
      requires gc.Valid() && source.handle in gc.objects
      modifies gc`objects, gc`next
      ensures gc.Valid() && CopyOf(source)
      ensures handle == old(gc.next) && handle !in old(gc.objects) && gc.next == old(gc.next) + 1
      ensures gc.objects == old(gc.objects)[handle := old(gc.objects)[source.handle].(entityId := id)]
    {
      var cls := source.scriptClass;
      scriptClass := cls;
      var clone := gc.objects[source.handle];
      var h := gc.CreateObjectReference(clone);
      handle := h;
      gc.InvokeEntityConstructor(h, id);
      onCreate := cls.FindMethod(OnCreateSignature);
      onUpdate := cls.FindMethod(OnUpdateSignature);
      onDestroy := cls.FindMethod(OnDestroySignature);
      fields := map[];
      new;
      LoadFields();
    }

    /** ~ScriptInstance: releases the instance's handle, and nothing else. */
    method Destroy(gc: GCManager)
      requires gc.Valid()
      modifies gc`objects, gc`next
      ensures gc.Valid()
      ensures gc.objects == old(gc.objects) - {handle} && gc.next == old(gc.next)
    {
      gc.ReleaseObjectReference(handle);
    }

    /** Rebinds the instance to a reloaded class: a new object under a new handle
        (the old handle is not released here), Entity(ulong) rerun, lifecycle
        methods looked up again, and the snapshot reconciled with the new fields. */
    method Invalidate(cls: ScriptClass, id: UUID, gc: GCManager)
      requires gc.Valid()
      modifies this`scriptClass, this`handle, this`fields, this`onCreate, this`onUpdate, this`onDestroy, gc`objects, gc`next
      ensures gc.Valid()
      ensures scriptClass == cls && LifecycleBoundTo(cls)
      ensures handle == old(gc.next) && handle !in old(gc.objects) && gc.next == old(gc.next) + 1
      ensures gc.objects == old(gc.objects)[handle := MonoObject(cls.QualifiedName(), id)]
      ensures fields == Reconciled(cls.fields, old(fields), handle)
    {
      scriptClass := cls;
      handle := cls.Instantiate(gc);
      gc.InvokeEntityConstructor(handle, id);
      onCreate := cls.FindMethod(OnCreateSignature);
      onUpdate := cls.FindMethod(OnUpdateSignature);
      onDestroy := cls.FindMethod(OnDestroySignature);
      LoadFields();
    }

    /** Replaces the snapshot by its reconciliation with the class's fields. */
    method LoadFields()
      modifies this`fields
      ensures fields == Reconciled(scriptClass.fields, old(fields), handle)
    {
      fields := ReconcileFields(scriptClass.fields, fields, handle);
    }

    /** The call OnCreate makes: none when the class has no OnCreate(). */
    method InvokeOnCreate() returns (call: Option<Call>)
      ensures call.None? <==> onCreate.None?
      ensures onCreate.Some? ==> call == Some(Call(handle, onCreate.value, []))
    {
      call := None;
      if onCreate.Some? {
        call := Some(Call(handle, onCreate.value, []));
      }
    }

    /** The call OnUpdate makes, passing the frame time through unchanged. */
    method InvokeOnUpdate(ts: real) returns (call: Option<Call>)
      ensures call.None? <==> onUpdate.None?
      ensures onUpdate.Some? ==> call == Some(Call(handle, onUpdate.value, [TimestepArg(ts)]))
    {
      call := None;
      if onUpdate.Some? {
        call := Some(Call(handle, onUpdate.value, [TimestepArg(ts)]));
      }
    }

    /** The call OnDestroy makes: none when the class has no OnDestroy(). */
    method InvokeOnDestroy() returns (call: Option<Call>)
      ensures call.None? <==> onDestroy.None?
      ensures onDestroy.Some? ==> call == Some(Call(handle, onDestroy.value, []))
    {
      call := None;
      if onDestroy.Some? {
        call := Some(Call(handle, onDestroy.value, []));
      }
    }
  }
}
