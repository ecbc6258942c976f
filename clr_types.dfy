/** The part of .NET's runtime type information the mod relies on: a type's
    identity, its chain of base classes, and whether it implements the
    `IMenuHandler` interface. */
module ClrTypes {
  import opened Common

  /** A class type. `baseType` is the direct base class (`Type.BaseType`);
      the chain ends at `System.Object`, whose base is `None`. Because the
      datatype is inductive, every chain of base classes is finite. */
  datatype ClrType = ClrType(name: string, baseType: Option<ClrType>, implementsMenuHandler: bool)

  /** `t.IsSubclassOf(k)`: `k` is a proper ancestor of `t` (its base, its
      base's base, ...). A type is never a subclass of itself. */
  predicate IsSubclassOf(t: ClrType, k: ClrType)
    decreases t
  {
    match t.baseType
    case None => false
    case Some(b) => b == k || IsSubclassOf(b, k)
  }

  /** The length of the chain of base classes above `t`. */
  function Depth(t: ClrType): (d: nat)
    decreases t
  {
    match t.baseType
    case None => 0
    case Some(b) => Depth(b) + 1
  }

  /** Every proper ancestor sits strictly higher in the hierarchy. */
  lemma {:induction false} SubclassIsDeeper(t: ClrType, k: ClrType)
    requires IsSubclassOf(t, k)
    ensures Depth(k) < Depth(t)
    decreases t
  {
    match t.baseType
    case Some(b) =>
      if b != k {
        SubclassIsDeeper(b, k);
      }
  }

  /** `IsSubclassOf` is irreflexive: a type never matches itself. */
  lemma SubclassIsStrict(t: ClrType)
    ensures !IsSubclassOf(t, t)
  {
    if IsSubclassOf(t, t) {
      SubclassIsDeeper(t, t);
    }
  }

  /** `IsSubclassOf` is transitive. */
  lemma {:induction false} SubclassIsTransitive(a: ClrType, b: ClrType, c: ClrType)
    requires IsSubclassOf(a, b) && IsSubclassOf(b, c)
    ensures IsSubclassOf(a, c)
    decreases a
  {
    match a.baseType
    case Some(p) =>
      if p != b {
        SubclassIsTransitive(p, b, c);
      }
  }

  /** `IsSubclassOf` is asymmetric: two types are never each other's
      ancestors. */
  lemma SubclassIsAsymmetric(a: ClrType, b: ClrType)
    requires IsSubclassOf(a, b)
    ensures !IsSubclassOf(b, a)
  {
    SubclassIsDeeper(a, b);
    if IsSubclassOf(b, a) {
      SubclassIsDeeper(b, a);
    }
  }

  /** `x as T` for a class type `T`: succeeds when the runtime type is `T`
      itself or one of its subclasses. */
  predicate IsInstanceOf(t: ClrType, target: ClrType) {
    t == target || IsSubclassOf(t, target)
  }

  const ObjectType := ClrType("System.Object", None, false)
}
