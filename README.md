# Arc script engine and asset manager, modelled in Dafny

This project models two parts of the Arc game engine.

**The scripting bookkeeping of `ScriptEngine`.**
- **Class table.** Each managed class whose immediate parent is `ArcEngine.Entity` has a descriptor, registered under `namespace.name`. A class that derives from `ArcEngine.Entity` only indirectly, through another class, is not registered.
- **Per-class reflection.** Each descriptor carries its public fields, its method lookups and a memoised property-accessor cache.
- **Two instance maps.** The edit-mode map and the runtime-mode map each bind an entity and a class name to a script instance. The *active* map is the one selected by `CurrentEntityInstanceMap`, modelled as a `Mode`.
- **Lifecycle operations.**
  - `CreateInstance`, `GetInstance` and `RemoveInstance` act on the active map.
  - `OnRuntimeBegin` copies every edit instance into the runtime map.
  - `OnRuntimeEnd` destroys the copies.
  - `ReloadAppDomain` rediscovers the classes and rebinds every edit instance to its new class, reconciling its field snapshot.

**The `AssetManager`.** Two independent get-or-create caches of textures, keyed by path.

The managed runtime is an oracle:
- a type table is a sequence of `TypeDef` rows (namespace, name, optional parent, fields with their `FieldAttributes` flags and type tags, method signatures, property names);
- a managed object is a `MonoObject` (its class and entity identifier);
- a call into managed code is a `Call` value.

The reference manager (`GCManager`, whose source is not part of this model) is a handle table with these properties:
- creating a reference returns a handle never used before;
- releasing a handle removes it;
- resolving a released handle yields nothing.

Modules:

| file | module | models |
|---|---|---|
| common.dfy | Common | Option, Result with the `at`-failure errors, the 64-bit UUID, handles |
| mono.dfy | Mono | type metadata, managed objects, calls into managed code |
| gc_manager.dfy | GC | the reference manager |
| script_class.dfy | ScriptClasses | `ScriptClass`: field filter, method lookup, property cache |
| script_instance.dfy | ScriptInstances | `ScriptInstance`: constructors, destructor, `Invalidate`, field reconciliation, lifecycle calls |
| discovery.dfy | Discovery | which type-table rows become scripting classes |
| instance_maps.dfy | InstanceMaps | instance maps as maps from (entity, class name) to instance; the handle-ownership discipline |
| script_engine.dfy | Engine | `ScriptEngine`: both maps, the mode, the class table and every engine operation |
| asset_manager.dfy | Assets | `AssetManager` and the two texture caches |

**Engine invariant.** `ScriptEngine.Valid()` states three things:
- every bound instance, in either map, holds a live handle;
- a ghost owner record maps each bound handle back to the one (mode, entity, class) position it was issued for;
- every descriptor in the class table is registered under its own qualified name, and its property cache is coherent.

From that invariant, `BindingsDistinct` derives the handle discipline: within each map no instance and no handle is bound at two positions, and no handle is bound in both maps. `MapsDisjoint` adds that no instance is bound in both maps.

**Nested maps.** The source's nested `UUID → (name → instance)` maps are modelled as one map from (UUID, name) pairs. Its nested loops over them become one loop over that set of pairs.

## Model

| member | source | states |
|---|---|---|
| GC.GCManager.constructor | Arc/src/Arc/Scripting/ScriptEngine.cpp:62 | GCManager::Init: an empty handle table |
| GC.GCManager.CreateObjectReference | Arc/src/Arc/Scripting/ScriptEngine.cpp:307 | the handle returned was never issued before; the table gains exactly that entry |
| GC.GCManager.ReleaseObjectReference | Arc/src/Arc/Scripting/ScriptEngine.cpp:411 | only that handle is removed, and it resolves to nothing afterwards |
| GC.GCManager.InvokeEntityConstructor | Arc/src/Arc/Scripting/ScriptEngine.cpp:398-400 | `Entity(ulong)` sets the entity identifier of the object behind the handle and changes nothing else |
| ScriptClasses.CollectFieldsExact | Arc/src/Arc/Scripting/ScriptEngine.cpp:358-366 | the emplace loop's table has exactly the admitted names; each name maps to the first admitted field with that name |
| ScriptClasses.PublicFieldsExact | Arc/src/Arc/Scripting/ScriptEngine.cpp:352-367 | every public field's name is a key, and every entry is a public field of the class under its own name |
| ScriptClasses.AsWrittenKeepsProtectedField | Arc/src/Arc/Scripting/ScriptEngine.cpp:362-363 | the code's bit test admits a Family (protected) field that the access test rejects |
| ScriptClasses.LoadFields | Arc/src/Arc/Scripting/ScriptEngine.cpp:352-367 | starting from an empty table, the loop builds exactly the table that the corrected access test admits (see Findings); the code's own bit test gives `FieldsAsWritten` instead |
| ScriptClasses.ScriptClass.constructor | Arc/src/Arc/Scripting/ScriptEngine.cpp:294-299 | the descriptor records its namespace, name and class; its field table is the one the corrected access test admits (see Findings), not the code's `FieldsAsWritten`; its cache is empty |
| ScriptClasses.ScriptClass.FindMethod | Arc/src/Arc/Scripting/ScriptEngine.cpp:313-318 | a method is found iff the class has that signature, and it is found in this class |
| ScriptClasses.ScriptClass.FindProperty | Arc/src/Arc/Scripting/ScriptEngine.cpp:335 | a property is found iff the class has it, and it is found in this class |
| ScriptClasses.ScriptClass.Instantiate | Arc/src/Arc/Scripting/ScriptEngine.cpp:301-311 | a new object of this class with entity identifier 0, pinned under a handle never issued before |
| ScriptClasses.ScriptClass.GetProperty | Arc/src/Arc/Scripting/ScriptEngine.cpp:327-342 | a hit returns the cached accessor and leaves the cache unchanged; a miss returns the reflection lookup and caches only a found accessor; with this class's own name and a coherent cache, the answer is always the reflection lookup and the cache stays coherent |
| ScriptClasses.CacheKeyInjective | Arc/src/Arc/Scripting/ScriptEngine.cpp:331 | with one class name, different property names give different cache keys |
| ScriptInstances.ReconciledFieldsMatchClass | Arc/src/Arc/Scripting/ScriptEngine.cpp:434-462 | the new snapshot has exactly the class's field names; each entry has the class's tag and the new owner handle; a value survives iff the field was present with the same tag, otherwise it is None |
| ScriptInstances.ReconcileIdempotent | Arc/src/Arc/Scripting/ScriptEngine.cpp:432-463 | reconciling again against the same class keeps every field name and value |
| ScriptInstances.AddedFieldScenario | Arc/src/Arc/Scripting/ScriptEngine.cpp:443-459 | an int field keeps its value when a float field is added, and the new field starts with no value |
| ScriptInstances.ReconcileFields | Arc/src/Arc/Scripting/ScriptEngine.cpp:435-462 | the loop builds, in a fresh map, the reconciled snapshot |
| ScriptInstances.ScriptInstance.constructor | Arc/src/Arc/Scripting/ScriptEngine.cpp:391-407 | a new object for the entity under a never-issued handle; lifecycle methods are looked up in the class; every field starts with no value |
| ScriptInstances.ScriptInstance.Copy | Arc/src/Arc/Scripting/ScriptEngine.cpp:372-389 | same class; the source's object is cloned under a new handle with the entity set; every field starts with no value |
| ScriptInstances.ScriptInstance.Destroy | Arc/src/Arc/Scripting/ScriptEngine.cpp:409-412 | the destructor releases exactly the instance's own handle |
| ScriptInstances.ScriptInstance.Invalidate | Arc/src/Arc/Scripting/ScriptEngine.cpp:414-430 | rebound to the new class; a new handle (the old one is not released); lifecycle methods looked up again; the snapshot is reconciled with the old one |
| ScriptInstances.ScriptInstance.LoadFields | Arc/src/Arc/Scripting/ScriptEngine.cpp:432-463 | the snapshot becomes its reconciliation with the class's fields |
| ScriptInstances.ScriptInstance.InvokeOnCreate | Arc/src/Arc/Scripting/ScriptEngine.cpp:465-469 | no call iff there is no OnCreate(); otherwise that method is called on the instance's handle with no arguments |
| ScriptInstances.ScriptInstance.InvokeOnUpdate | Arc/src/Arc/Scripting/ScriptEngine.cpp:471-478 | no call iff there is no OnUpdate(single); otherwise it is called with the frame time passed through |
| ScriptInstances.ScriptInstance.InvokeOnDestroy | Arc/src/Arc/Scripting/ScriptEngine.cpp:480-484 | no call iff there is no OnDestroy(); otherwise that method is called with no arguments |
| Discovery.DiscoverDomain | Arc/src/Arc/Scripting/ScriptEngine.cpp:179-191 | a name is registered iff some row with that `namespace.name` has ArcEngine.Entity as its parent |
| Discovery.DiscoverRows | Arc/src/Arc/Scripting/ScriptEngine.cpp:179-191 | the type registered under a name is a qualifying row of the table with that name |
| Discovery.DiscoverLast | Arc/src/Arc/Scripting/ScriptEngine.cpp:191 | a later row of the same name overwrites an earlier one: the registered type is the last qualifying row |
| Discovery.NonEntityTypeNotRegistered | Arc/src/Arc/Scripting/ScriptEngine.cpp:184-190 | a type with no parent, or a parent other than ArcEngine.Entity, is not registered unless another row of its name qualifies |
| Discovery.IndirectSubclassNotRegistered | Arc/src/Arc/Scripting/ScriptEngine.cpp:181-191 | a class whose parent is itself a scripting class is not registered, while that parent is: only the immediate parent is compared with `ArcEngine.Entity` |
| Engine.ScriptEngine.MapsDisjoint | Arc/src/Arc/Scripting/ScriptEngine.cpp:39-40 | no instance is bound in both the edit and the runtime map |
| Engine.ScriptEngine.HandleSetsDisjoint | Arc/src/Arc/Scripting/ScriptEngine.cpp:38-41 | no handle is bound in both the edit and the runtime map |
| Engine.ScriptEngine.BindingsDistinct | Arc/src/Arc/Scripting/ScriptEngine.cpp:38-41 | within each map, no instance is bound at two positions and no handle is held at two positions; no handle is bound in both maps (instance disjointness across the maps is `MapsDisjoint`) |
| Engine.ScriptEngine.HasClass | Arc/src/Arc/Scripting/ScriptEngine.cpp:242-245 | true iff a descriptor is registered under exactly that name |
| Engine.ScriptEngine.GetInstance | Arc/src/Arc/Scripting/ScriptEngine.cpp:237-240 | succeeds iff the active map binds the position, returning that instance; otherwise fails with `InstanceNotFound` |
| Engine.ScriptEngine.GetFields | Arc/src/Arc/Scripting/ScriptEngine.cpp:258-261 | the snapshot of the instance GetInstance finds, or GetInstance's failure |
| Engine.ScriptEngine.AdoptEdit | Arc/src/Arc/Scripting/ScriptEngine.cpp:233 | binds a newly pinned instance at one position of the edit map, keeping the ownership discipline |
| Engine.ScriptEngine.AdoptRuntime | Arc/src/Arc/Scripting/ScriptEngine.cpp:233 | the same for the runtime map |
| Engine.ScriptEngine.BindActive | Arc/src/Arc/Scripting/ScriptEngine.cpp:233 | binds at one position of the active map only; the other map is unchanged |
| Engine.ScriptEngine.CreateInstance | Arc/src/Arc/Scripting/ScriptEngine.cpp:228-235 | an unknown class fails with `ClassNotFound` and changes nothing; otherwise a fresh instance of that class, for that entity and under a never-issued handle, is bound at the position of the active map only and returned; `Valid()` is kept |
| Engine.ScriptEngine.constructor | Arc/src/Arc/Scripting/ScriptEngine.cpp:48-65 | Init: fresh reference manager, both maps empty, edit mode active, class table discovered from the image |
| Engine.ScriptEngine.DropEdit | Arc/src/Arc/Scripting/ScriptEngine.cpp:250 | erases one position of the edit map; the discipline holds once its handle is released |
| Engine.ScriptEngine.DropRuntime | Arc/src/Arc/Scripting/ScriptEngine.cpp:250 | the same for the runtime map |
| Engine.ScriptEngine.EraseEdit | Arc/src/Arc/Scripting/ScriptEngine.cpp:249-250 | destroys the edit instance at the position, if any (only its handle is released), and erases the position |
| Engine.ScriptEngine.EraseRuntime | Arc/src/Arc/Scripting/ScriptEngine.cpp:249-250 | the same for the runtime map |
| Engine.ScriptEngine.RemoveInstance | Arc/src/Arc/Scripting/ScriptEngine.cpp:247-251 | the position is erased from the active map only; the removed instance's handle, and no other, is released; a missing position changes nothing; `Valid()` is kept |
| Engine.ScriptEngine.DestroyInstances | Arc/src/Arc/Scripting/ScriptEngine.cpp:220-224 | the destructor loop releases exactly the handles of the map |
| Engine.ScriptEngine.ReleaseHandles | Arc/src/Arc/Scripting/ScriptEngine.cpp:114-120 | the release loop releases exactly the handles of the map |
| Engine.ScriptEngine.ClearRuntime | Arc/src/Arc/Scripting/ScriptEngine.cpp:219-225 | the runtime map is empty and edit mode is active |
| Engine.ScriptEngine.OnRuntimeEnd | Arc/src/Arc/Scripting/ScriptEngine.cpp:217-226 | edit mode is active; the runtime map is empty; exactly the runtime instances' handles are released; the edit map and class table are unchanged; `Valid()` is kept |
| Engine.ScriptEngine.AdoptCopy | Arc/src/Arc/Scripting/ScriptEngine.cpp:212 | binds a copy at its position of the runtime map, extending the copied-so-far record |
| Engine.ScriptEngine.CopyToRuntime | Arc/src/Arc/Scripting/ScriptEngine.cpp:211-212 | binds at that position of the runtime map a fresh copy of the edit instance |
| Engine.ScriptEngine.OnRuntimeBegin | Arc/src/Arc/Scripting/ScriptEngine.cpp:203-215 | runtime mode is active; every edit position holds a fresh copy of its edit instance (same class, cloned object with the entity set, handle issued during the call); the handle table gains exactly the copies' handles and keeps every other entry; other runtime entries are kept; the edit map is unchanged; `Valid()` is kept |
| Engine.ScriptEngine.RuntimeRoundTrip | Arc/src/Arc/Scripting/ScriptEngine.cpp:203-226 | starting and ending a play session leaves edit mode active with an empty runtime map; every edit instance keeps its state, and its handle stays live, referring to the same object |
| Engine.ScriptEngine.LoadAssemblyClasses | Arc/src/Arc/Scripting/ScriptEngine.cpp:164-196 | the loop registers a fresh descriptor for the type `Discover` picks at each discovered name; other entries are kept |
| Engine.ScriptEngine.LoadClientAssembly | Arc/src/Arc/Scripting/ScriptEngine.cpp:98-109 | after the clear, the table holds exactly the classes of the current image |
| Engine.ScriptEngine.Rebind | Arc/src/Arc/Scripting/ScriptEngine.cpp:147-151 | one rebuild step: the instance is invalidated against its registered class and bound in the rebuilt map; the loop state is kept |
| Engine.ScriptEngine.Reinstantiate | Arc/src/Arc/Scripting/ScriptEngine.cpp:151 | Invalidate on an instance no other binding shares leaves every other instance's state unchanged |
| Engine.ScriptEngine.RebuildEditMap | Arc/src/Arc/Scripting/ScriptEngine.cpp:141-158 | completes iff every bound class name is still registered (`at` fails otherwise); then every position binds its own instance, rebound to its new class, and the handle table has gained exactly the rebound instances' handles; in every case it keeps each earlier entry and gains only handles issued during the call |
| Engine.ScriptEngine.ReloadAppDomain | Arc/src/Arc/Scripting/ScriptEngine.cpp:111-162 | the class table is exactly the new image's classes; every old edit handle is released, and every other handle keeps its object; the edit map keeps every position bound to the same instance; it completes iff every bound class is still registered; then edit mode is active, `Valid()` holds, every instance is rebound and reconciled, and the handle table is the old one without the old edit handles plus exactly the new ones |
| Engine.ScriptEngine.PrepareReload | Arc/src/Arc/Scripting/ScriptEngine.cpp:114-139 | the handle table becomes the old one without exactly the edit handles, and the class table is rebuilt from the image |
| Engine.ScriptEngine.FinishReload | Arc/src/Arc/Scripting/ScriptEngine.cpp:141-161 | the rebuild, which only adds handles issued during the call; when complete, the rebuilt map is installed, edit mode is made active, and exactly the rebound instances' handles were added |
| Engine.ScriptEngine.InstallEdit | Arc/src/Arc/Scripting/ScriptEngine.cpp:159-161 | installing the rebuilt map in edit mode re-establishes `Valid()` |
| Engine.ScriptEngine.SetEdit | Arc/src/Arc/Scripting/ScriptEngine.cpp:159-161 | assigns the edit map and selects it |
| Engine.ScriptEngine.GetProperty | Arc/src/Arc/Scripting/ScriptEngine.cpp:278-283 | an unknown class fails with `ClassNotFound`; otherwise the answer is exactly the reflection lookup in that class, and `Valid()` is kept |
| Engine.ScriptEngine.SetProperty | Arc/src/Arc/Scripting/ScriptEngine.cpp:268-276 | the setter is called, with the given arguments, iff the handle still resolves to an object |
| Engine.ScriptEngine.Shutdown | Arc/src/Arc/Scripting/ScriptEngine.cpp:67-83 | exactly the edit instances' handles are released, and the class table is empty |
| Assets.Texture2D.constructor | Arc/src/Arc/Core/AssetManager.cpp:24 | the factory's texture records the path it was loaded from |
| Assets.TextureCubemap.constructor | Arc/src/Arc/Core/AssetManager.cpp:34 | the same for cube maps |
| Assets.AssetManager.constructor | Arc/src/Arc/Core/AssetManager.cpp:6-11 | both caches start empty |
| Assets.AssetManager.Shutdown | Arc/src/Arc/Core/AssetManager.cpp:13-17 | both caches are empty afterwards |
| Assets.AssetManager.GetTexture2D | Arc/src/Arc/Core/AssetManager.cpp:19-27 | a hit returns the cached texture and changes nothing (no new texture); a miss returns a fresh texture loaded from `path` and adds only that entry; the cube-map cache is untouched |
| Assets.AssetManager.GetTextureCubemap | Arc/src/Arc/Core/AssetManager.cpp:29-37 | the same get-or-create behaviour on the cube-map cache; the 2D cache is untouched |
| Assets.AssetManager.GetTexture2DTwice | Arc/src/Arc/Core/AssetManager.cpp:19-27 | two requests for one path return the identical texture; at most one entry is added |
| Assets.AssetManager.GetTextureCubemapTwice | Arc/src/Arc/Core/AssetManager.cpp:29-37 | the same for cube maps |

## Where the code and the system's description differ

The model follows the code in each of these cases.

- **A bound class missing after a reload.** `ReloadAppDomain` looks up each bound class with `at`, which throws when the class is gone (ScriptEngine.cpp:147). A silent drop is not what happens. The model returns `ok` false:
  - the handles are already released;
  - the class table is already rebuilt;
  - the instances handled so far are already invalidated;
  - the edit map keeps its old bindings;
  - the active map is not reset.
- **Copies start with a fresh native snapshot.** The copy constructor clones the edit instance's managed object with `mono_object_clone` (ScriptEngine.cpp:376), so the copy's managed fields start with the edit object's values. Only the native `Field` snapshot is rebuilt: the copy starts with an empty one, so its `LoadFields` creates every entry with no native value (ScriptEngine.cpp:372-389).
- **Only direct subclasses of `ArcEngine.Entity` are discovered.** The system's description speaks of all classes deriving from the base scripting type. The code compares only the immediate parent that `mono_class_get_parent` returns (ScriptEngine.cpp:182-191), so a class derived from another scripting class is never registered. `Discovery.IndirectSubclassNotRegistered` shows this on a two-row type table.
- **Shutdown destroys only the edit instances.** The system's description says Shutdown destroys the live instances of both maps. The code deletes only the instances of the edit map (ScriptEngine.cpp:71-77), so runtime instances are neither destroyed nor released. The model follows the code.
- **Runtime instances survive a reload.** `ReloadAppDomain` leaves the runtime map alone and selects the edit map. A reload during runtime mode does not destroy the runtime instances.
- **`CreateInstance` overwriting a position.** When the position is already bound, `CreateInstance` overwrites the old instance without deleting it, so its handle stays pinned. The model keeps that handle live and unbound.

## Left out

- Mono runtime calls have no model. This covers domains, assembly loading, metadata decoding, `mono_object_new` and `mono_object_clone`, and method-description search. A type table is an input sequence, and reflection answers are the fields of `TypeDef`.
- `LoadCoreAssembly` is left out (ScriptEngine.cpp:85-95). It loads the core assembly, resolves `ArcEngine.Entity` (here the constant `Mono.EntityBase`), runs `GCManager::CollectGarbage` and runs `ScriptEngineRegistry::RegisterAll`. The assembly load and the registry are foreign code, and `GCManager` is not part of this model.
- `GetCoreAssemblyImage`, `GetDomain` and `GetClasses` are left out. They only return references.
- `GCManager::CollectGarbage` and `GCManager::Shutdown` are left out, because `GCManager` is not part of this model. In particular, `Shutdown` does not model the reference manager's own shutdown.
- Process setup and teardown in `Init` and `Shutdown` is left out: `mono_set_dirs`, `mono_jit_init`, thread registration and `mono_jit_cleanup`.
- The Mono-failure branch of `Instantiate` is left out: the model assumes `mono_object_new` always succeeds.
- `ScriptClass(MonoClass*)` and `ScriptClass::InvokeMethod` have no separate model. The `Entity(ulong)` constructor call they make is `InvokeEntityConstructor`, and a lifecycle invocation is a `Call` value.
- `ScriptClass::SetProperty` (ScriptEngine.cpp:344-350) is not modelled. Only the engine's `SetProperty` is.
- Field values are copied as a value, `Option<seq<bv8>>`. The `new char[]`/`memcpy`/`delete[]` buffer handling at ScriptEngine.cpp:448-454 and `Field::SetValue` are left out.
- Managed-side field values are not modelled. A `MonoObject` records only its class and entity identifier, so what `mono_object_clone` copies besides these is not represented; the model tracks only the native `Field` snapshot.
- Field type tags are an input, `TypeTag`. `Field::GetFieldType` is not shown.
- The frame time passed to `OnUpdate` is an opaque `real`, passed through unchanged.
- The non-null test at ScriptEngine.cpp:148 is not modelled. The model never stores a null instance, so the `new ScriptInstance` branch (153-156) cannot be reached.
- GetInstance's and RemoveInstance's `operator[]` on a missing entity is not modelled. On a missing entity, `operator[]` inserts an empty inner map; the flat map of pairs does not, which makes no difference to any lookup.
- Discovery assumes that a type-table row resolves, by `mono_class_from_name`, to itself (no nested types). So the model never meets a null `monoClass`. The code calls `mono_class_get_parent(monoClass)` at ScriptEngine.cpp:182, before the `monoClass &&` guard at line 189, so that guard cannot protect the parent lookup. A row that does not resolve is not modelled.
- Texture loading is not modelled. `Texture2D::Create` and `TextureCubemap::Create` are abstract factories: a new object that records its path.
- `AssetManager::Init` has no model of its own, because it is empty. The constructor stands for the empty static maps.
- Engine.ScriptEngine.ReloadAppDomain: when `at` fails, the contract does not promise `Valid()` and only partly describes the intermediate state. This matches the source, which throws there.
- Engine.ScriptEngine.OnRuntimeBegin: the set of handles issued is stated exactly, but not which copy gets which counter value. That depends on the iteration order of the source's hash maps.
- Engine.ScriptEngine.Shutdown: `Valid()` is not promised afterwards. The edit map still binds instances whose handles are released, as in the source.
- Engine.ScriptEngine.SetProperty: `SetterOf` is total, so every property has a setter. In the code, `mono_property_get_set_method` returns null for a get-only property, and line 275 then invokes that null method. A null property pointer, which the engine's `GetProperty` passes on after a reflection miss, is not modelled either.
- ScriptClasses.LoadFields and ScriptClasses.ScriptClass.constructor build the field table with the corrected access test `PublicFields`, not with the bit test that ScriptEngine.cpp:362 performs. The code's own table is `ScriptClasses.FieldsAsWritten`, and `AsWrittenKeepsProtectedField` exhibits a field on which the two differ (see Findings). The rest of the model uses the corrected table.
- ScriptClasses.ScriptClass.GetProperty: the cache key is the class name followed by the property name, with no separator. Names such as "A"+"BC" and "AB"+"C" collide when a caller passes a class name other than the descriptor's own. The contract states the general hit/miss behaviour, and states agreement with reflection only for the descriptor's own name, which is the name the engine always passes.

## Findings

| source | as written | input that shows it | evidently intended | confidence | as-written member | corrected member |
|---|---|---|---|---|---|---|
| Arc/src/Arc/Scripting/ScriptEngine.cpp:362 | a field is kept when `flags & MONO_FIELD_ATTR_PUBLIC` (0x0006) is nonzero | a field with flags 0x0004 (Family, that is C# `protected`) is kept, as are FamANDAssem (2), Assembly (3) and FamORAssem (5) | keep a field iff its access, `flags & 0x0007`, equals Public (0x0006), as section II.23.1.5 of ECMA-335 defines it | not executed | ScriptClasses.AsWrittenKeepsProtectedField | ScriptClasses.PublicFieldsExact |
