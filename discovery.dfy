/** Class discovery: which rows of the client assembly's type table become
    scripting classes, and under which names. */
module Discovery {
  import opened Common
  import opened Mono

  /** A type qualifies as a scripting class iff its immediate parent is ArcEngine.Entity. */
  predicate HasEntityParent(t: TypeDef)
  {
    t.parent == Some(EntityBase)
  }

  function FullName(t: TypeDef): string
  {
    QualifiedName(t.namespace, t.name)
  }

  /** The class table LoadAssemblyClasses adds for a type table: each qualifying
      row under its qualified name, a later row replacing an earlier one. */
  function Discover(image: seq<TypeDef>): map<string, TypeDef>
  {
    if |image| == 0 then map[]
    else
      var m := Discover(image[..|image| - 1]);
      var t := image[|image| - 1];
      if HasEntityParent(t) then m[FullName(t) := t] else m
  }

  /** Class discovery: a name is registered iff some row with that qualified
      name has ArcEngine.Entity as its parent. */
  lemma {:induction false} DiscoverDomain(image: seq<TypeDef>)
    ensures forall k :: k in Discover(image) <==>
              exists i :: 0 <= i < |image| && HasEntityParent(image[i]) && FullName(image[i]) == k
  {
    if |image| > 0 {
      var prefix := image[..|image| - 1];
      var t := image[|image| - 1];
      DiscoverDomain(prefix);
      assert image == prefix + [t];
      forall k ensures k in Discover(image) <==>
                exists i :: 0 <= i < |image| && HasEntityParent(image[i]) && FullName(image[i]) == k
      {
        if k in Discover(image) && !(HasEntityParent(t) && FullName(t) == k) {
          assert k in Discover(prefix);
          var i :| 0 <= i < |prefix| && HasEntityParent(prefix[i]) && FullName(prefix[i]) == k;
          assert image[i] == prefix[i];
        }
        if exists i :: 0 <= i < |image| && HasEntityParent(image[i]) && FullName(image[i]) == k {
          var i :| 0 <= i < |image| && HasEntityParent(image[i]) && FullName(image[i]) == k;
          if i < |prefix| {
            assert prefix[i] == image[i];
          }
        }
      }
    }
  }

  /** The type registered under a name is a row of the table that has
      ArcEngine.Entity as parent and carries that qualified name. */
  lemma {:induction false} DiscoverRows(image: seq<TypeDef>)
    ensures forall k | k in Discover(image) ::
              Discover(image)[k] in image && HasEntityParent(Discover(image)[k]) && FullName(Discover(image)[k]) == k
  {
    if |image| > 0 {
      var prefix := image[..|image| - 1];
      DiscoverRows(prefix);
      assert image == prefix + [image[|image| - 1]];
    }
  }

  /** A later row replaces an earlier one: the type registered under a name is
      the last qualifying row with that name. */
  lemma {:induction false} DiscoverLast(image: seq<TypeDef>)
    ensures forall i | 0 <= i < |image| && HasEntityParent(image[i]) &&
                       (forall j | i < j < |image| :: !(HasEntityParent(image[j]) && FullName(image[j]) == FullName(image[i]))) ::
              FullName(image[i]) in Discover(image) && Discover(image)[FullName(image[i])] == image[i]
  {
    if |image| > 0 {
      var prefix := image[..|image| - 1];
      DiscoverLast(prefix);
      forall i | 0 <= i < |image| && HasEntityParent(image[i]) &&
                 (forall j | i < j < |image| :: !(HasEntityParent(image[j]) && FullName(image[j]) == FullName(image[i])))
        ensures FullName(image[i]) in Discover(image) && Discover(image)[FullName(image[i])] == image[i]
      {
        if i < |prefix| {
          assert prefix[i] == image[i];
          forall j | i < j < |prefix|
            ensures !(HasEntityParent(prefix[j]) && FullName(prefix[j]) == FullName(prefix[i]))
          {
            assert prefix[j] == image[j];
          }
        }
      }
    }
  }

  /** A type without ArcEngine.Entity as parent (in particular one without a
      parent) is registered only if another row of the same name qualifies. */
  lemma NonEntityTypeNotRegistered(image: seq<TypeDef>, i: nat)
    requires i < |image| && !HasEntityParent(image[i])
    requires forall j | 0 <= j < |image| && FullName(image[j]) == FullName(image[i]) :: !HasEntityParent(image[j])
    ensures FullName(image[i]) !in Discover(image)
  {
    DiscoverDomain(image);
  }

  /** Only the immediate parent counts: a class deriving from ArcEngine.Entity
      through another scripting class (here Game.Enemy, whose parent is
      Game.Character) is not registered, while its parent is. */
  lemma IndirectSubclassNotRegistered()
    ensures var character := TypeDef("Game", "Character", Some(EntityBase), [], {}, {});
            var enemy := TypeDef("Game", "Enemy", Some(TypeName("Game", "Character")), [], {}, {});
            FullName(character) in Discover([character, enemy]) && FullName(enemy) !in Discover([character, enemy])
  {
    var character := TypeDef("Game", "Character", Some(EntityBase), [], {}, {});
    var enemy := TypeDef("Game", "Enemy", Some(TypeName("Game", "Character")), [], {}, {});
    var image := [character, enemy];
    assert image[..1] == [character] && [character][..0] == [];
    assert !HasEntityParent(enemy);
    assert Discover(image) == Discover([character]);
    assert Discover([character]) == map[FullName(character) := character];
    assert FullName(character) != FullName(enemy) by {
      assert FullName(character)[5] == 'C' && FullName(enemy)[5] == 'E';
    }
  }
}
