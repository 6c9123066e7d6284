/** The class descriptor: one managed class whose immediate parent is
    ArcEngine.Entity, its reflected public fields, its method lookups and its
    memoised property accessors. */
module ScriptClasses {
  import opened Common
  import opened Mono
  import opened GC

  /** FieldAttributes access mask and the Public access value (ECMA-335,
      section II.23.1.5). */
  const FieldAccessMask: bv32 := 0x0007
  const FieldAttrPublic: bv32 := 0x0006

  /** The field filter as the engine writes it: some bit of the Public value is set.
      This also lets FamANDAssem (2), Assembly (3), Family (4) and FamORAssem (5) through. */
  predicate PassesPublicBitTest(f: FieldInfo)
  {
    f.flags & FieldAttrPublic != 0
  }

  /** The intended filter: the field's access is exactly Public. */
  predicate IsPublic(f: FieldInfo)
  {
    f.flags & FieldAccessMask == FieldAttrPublic
  }

  /** The field table built from `fs` in order, keeping the fields `keep` admits;
      a name already present is not overwritten (emplace). */
  function CollectFields(fs: seq<FieldInfo>, keep: FieldInfo -> bool): map<string, FieldInfo>
  {
    if |fs| == 0 then map[]
    else
      var m := CollectFields(fs[..|fs| - 1], keep);
      var f := fs[|fs| - 1];
      if keep(f) && f.name !in m then m[f.name := f] else m
  }

  /** The table ScriptClass::LoadFields builds, with the corrected access test. */
  function PublicFields(fs: seq<FieldInfo>): map<string, FieldInfo>
  {
    CollectFields(fs, IsPublic)
  }

  /** The table as the code builds it, with the bit test. */
  function FieldsAsWritten(fs: seq<FieldInfo>): map<string, FieldInfo>
  {
    CollectFields(fs, PassesPublicBitTest)
  }

  /** The collected table holds exactly the names of the admitted fields, each
      bound to an admitted field of `fs` with that name, namely the first one. */
  lemma {:induction false} CollectFieldsExact(fs: seq<FieldInfo>, keep: FieldInfo -> bool)
    ensures CollectFields(fs, keep).Keys == set f | f in fs && keep(f) :: f.name
    ensures forall n | n in CollectFields(fs, keep) ::
              var f := CollectFields(fs, keep)[n]; f in fs && keep(f) && f.name == n
    ensures forall i | 0 <= i < |fs| && keep(fs[i]) && fs[i].name !in CollectFields(fs[..i], keep) ::
              CollectFields(fs, keep)[fs[i].name] == fs[i]
  {
    if |fs| > 0 {
      var prefix := fs[..|fs| - 1];
      CollectFieldsExact(prefix, keep);
      assert fs == prefix + [fs[|fs| - 1]];
      forall i | 0 <= i < |fs| - 1
        ensures fs[..i] == prefix[..i]
      {
      }
    }
  }

  /** The descriptor's table contains exactly the public fields: every public
      field's name is a key, and no key refers to a non-public field. */
  lemma PublicFieldsExact(fs: seq<FieldInfo>)
    ensures forall i | 0 <= i < |fs| && IsPublic(fs[i]) :: fs[i].name in PublicFields(fs)
    ensures forall n | n in PublicFields(fs) ::
              IsPublic(PublicFields(fs)[n]) && PublicFields(fs)[n] in fs && PublicFields(fs)[n].name == n
  {
    CollectFieldsExact(fs, IsPublic);
    forall i | 0 <= i < |fs| && IsPublic(fs[i])
      ensures fs[i].name in PublicFields(fs)
    {
      assert fs[i] in fs;
    }
  }

  /** The code's bit test keeps a protected (Family) field, which the access
      test rejects: the table as written is not the public-field table. */
  lemma AsWrittenKeepsProtectedField()
    ensures var f := FieldInfo("health", 0x0004, TypeTag(0));
            "health" in FieldsAsWritten([f]) && "health" !in PublicFields([f])
  {
    var f := FieldInfo("health", 0x0004, TypeTag(0));
    assert [f][..0] == [];
  }

  /** ScriptClass::LoadFields: starting from an empty table, adds every public
      field of the class in declaration order. */
  method LoadFields(fs: seq<FieldInfo>) returns (table: map<string, FieldInfo>)
    ensures table == PublicFields(fs)
  {
    table := map[];
    var i := 0;
    while i < |fs|
      invariant 0 <= i <= |fs|
      invariant table == PublicFields(fs[..i])
    {
      var f := fs[i];
      assert fs[..i + 1][..i] == fs[..i];
      if IsPublic(f) && f.name !in table {
        table := table[f.name := f];
      }
      i := i + 1;
    }
    assert fs[..i] == fs;
  }

  class ScriptClass {
    const classNamespace: string
    const className: string
    /** The managed class this descriptor reflects. */
    const monoClass: TypeDef
    /** Field name to reflected field: m_Fields, filled once by the constructor. */
    const fields: map<string, FieldInfo>
    /** The memoised accessor lookups, keyed by class name + property name: m_Properties. */
    var properties: map<string, PropertyRef>

    function QualifiedName(): string
    {
      Mono.QualifiedName(classNamespace, className)
    }

    /** Every cached accessor is a real property of the class, registered under
        this class's name followed by the property's name. */
    ghost predicate CacheCoherent()
      reads this`properties
    {
      forall k | k in properties ::
        && properties[k] == PropertyRef(QualifiedName(), properties[k].name)
        && properties[k].name in monoClass.properties
        && k == QualifiedName() + properties[k].name
    }

    /** ScriptClass(namespace, name): resolve the class and load its fields. */
    constructor (classNamespace: string, className: string, monoClass: TypeDef)
      ensures this.classNamespace == classNamespace && this.className == className
      ensures this.monoClass == monoClass
      ensures fields == PublicFields(monoClass.fields)
      ensures properties == map[] && CacheCoherent()
    {
      this.classNamespace := classNamespace;
      this.className := className;
      this.monoClass := monoClass;
      properties := map[];
      var table := LoadFields(monoClass.fields);
      fields := table;
    }

    /** GetMethod: a method of this class with the given signature, if any. */
    function FindMethod(signature: string): (r: Option<MethodRef>)
      ensures r.Some? <==> signature in monoClass.methods
      ensures r.Some? ==> r.value.owner == QualifiedName() && r.value.signature == signature
    {
      if signature in monoClass.methods then Some(MethodRef(QualifiedName(), signature)) else None
    }

    /** The reflection lookup of a property by name (the uncached path). */
    function FindProperty(propertyName: string): (r: Option<PropertyRef>)
      ensures r.Some? <==> propertyName in monoClass.properties
      ensures r.Some? ==> r.value.owner == QualifiedName() && r.value.name == propertyName
    {
      if propertyName in monoClass.properties then Some(PropertyRef(QualifiedName(), propertyName)) else None
    }

    /** Creates a managed object of this class, runs its default constructor
        (which sets the entity identifier to 0) and pins it. */
    method Instantiate(gc: GCManager) returns (h: Handle)
      requires gc.Valid()
      modifies gc`objects, gc`next
      ensures gc.Valid()
      ensures h == old(gc.next) && h !in old(gc.objects) && gc.next == old(gc.next) + 1
      ensures gc.objects == old(gc.objects)[h := MonoObject(QualifiedName(), 0)]
    {
      h := gc.CreateObjectReference(MonoObject(QualifiedName(), 0));
    }

    /** The memoising accessor lookup. A cached key is answered from the cache;
        otherwise the class is searched and only a found property is cached.
        When the caller passes this class's own name, the cache is invisible:
        the answer is always the reflection lookup. */
    method GetProperty(cls: string, propertyName: string) returns (r: Option<PropertyRef>)
      modifies this`properties
      ensures var key := cls + propertyName;
              if key in old(properties) then
                r == Some(old(properties)[key]) && properties == old(properties)
              else
                r == FindProperty(propertyName) &&
                properties == if r.Some? then old(properties)[key := r.value] else old(properties)
      ensures cls == QualifiedName() && old(CacheCoherent()) ==>
                CacheCoherent() && r == FindProperty(propertyName)
    {
      var key := cls + propertyName;
      if key in properties {
        r := Some(properties[key]);
        if cls == QualifiedName() && CacheCoherent() {
          CacheKeyInjective(cls, propertyName, properties[key].name);
        }
        return;
      }
      r := FindProperty(propertyName);
      if r.Some? {
        properties := properties[key := r.value];
      }
    }
  }

  /** Appending different property names to one class name gives different keys. */
  lemma CacheKeyInjective(cls: string, p: string, q: string)
    requires cls + p == cls + q
    ensures p == q
  {
    assert p == (cls + p)[|cls|..];
    assert q == (cls + q)[|cls|..];
  }
}
