/** The registry that tells the input dispatcher which menu handler owns an
    open menu (`HandlerMapping`). Menus are looked up by runtime type, with
    a fallback to a registered base class, or by class name for menus of
    other mods. Handlers are created once per handler type and shared. */
module HandlerMappings {
  import opened Common
  import opened ClrTypes

  /** A menu handler instance (an `IMenuHandler`), known by the type it was
      created from. */
  class MenuHandler {
    const handlerType: ClrType

    constructor (handlerType: ClrType)
      ensures this.handlerType == handlerType
    {
      this.handlerType := handlerType;
    }
  }

  /** The result of an operation that may throw. */
  datatype Outcome<T> = Ok(value: T) | Threw

  /** The dictionary's keys in enumeration order: every key exactly once.
      The model takes the enumeration order to be the order in which keys
      were first inserted, which is what .NET does for a dictionary that
      never has entries removed. */
  predicate OrderMatches(byType: map<ClrType, MenuHandler>, order: seq<ClrType>) {
    && (forall i, j :: 0 <= i < j < |order| ==> order[i] != order[j])
    && (forall k :: k in byType ==> k in order)
    && (forall i :: 0 <= i < |order| ==> order[i] in byType)
  }

  /** `TryGetHandler(Type)` as a value: the handler of the exact type if
      registered, otherwise that of the first registered key the type is a
      strict subclass of, otherwise none. */
  function ResolveType(byType: map<ClrType, MenuHandler>, order: seq<ClrType>, menuType: ClrType): Option<MenuHandler>
    requires OrderMatches(byType, order)
  {
    if menuType in byType then Some(byType[menuType])
    else
      var i := FirstIndexWhere(order, (k: ClrType) => IsSubclassOf(menuType, k));
      if i == -1 then None else Some(byType[order[i]])
  }

  /** An exact registration wins. Otherwise a handler is found exactly when
      some registered key is a proper ancestor of the type, and the handler
      found is the one registered for such an ancestor. */
  lemma ResolveTypeFindsAncestor(byType: map<ClrType, MenuHandler>, order: seq<ClrType>, menuType: ClrType)
    requires OrderMatches(byType, order)
    ensures menuType in byType ==> ResolveType(byType, order, menuType) == Some(byType[menuType])
    ensures menuType !in byType ==>
      (ResolveType(byType, order, menuType).Some? <==> exists k :: k in byType && IsSubclassOf(menuType, k))
    ensures menuType !in byType && ResolveType(byType, order, menuType).Some? ==>
      exists k :: k in byType && IsSubclassOf(menuType, k) && ResolveType(byType, order, menuType).value == byType[k]
  {
    if menuType !in byType {
      var p := (k: ClrType) => IsSubclassOf(menuType, k);
      var i := FirstIndexWhere(order, p);
      if i == -1 {
        forall k | k in byType
          ensures !IsSubclassOf(menuType, k)
        {
          var j :| 0 <= j < |order| && order[j] == k;
          assert !p(order[j]);
        }
      } else {
        assert p(order[i]);
        assert order[i] in byType && IsSubclassOf(menuType, order[i]);
      }
    }
  }

  /** A type is never resolved through itself: a handler registered for a
      base class is found for a derived type, never the reverse. */
  lemma ResolveTypeGoesUpOnly(byType: map<ClrType, MenuHandler>, order: seq<ClrType>, base: ClrType, derived: ClrType)
    requires OrderMatches(byType, order)
    requires byType.Keys == {base} && IsSubclassOf(derived, base)
    ensures ResolveType(byType, order, derived) == Some(byType[base])
    ensures ResolveType(byType, order, base) == Some(byType[base])
    ensures forall t :: IsSubclassOf(base, t) ==> ResolveType(byType, order, t) == None
  {
    ResolveTypeFindsAncestor(byType, order, derived);
    forall t | IsSubclassOf(base, t)
      ensures ResolveType(byType, order, t) == None
    {
      SubclassIsStrict(base);
      SubclassIsAsymmetric(base, t);
      ResolveTypeFindsAncestor(byType, order, t);
    }
  }

  class HandlerMapping {
    var handlerByType: map<ClrType, MenuHandler>
    /** The keys of `handlerByType` in enumeration order. */
    var typeOrder: seq<ClrType>
    var handlerByName: map<string, MenuHandler>
    var handlerSingletons: map<ClrType, MenuHandler>

    /** The key order lists the type keys, and every singleton was made
        from the type it is stored under. */
    predicate Valid()
      reads this
    {
      && OrderMatches(handlerByType, typeOrder)
      && forall t :: t in handlerSingletons ==> handlerSingletons[t].handlerType == t
    }

    /** The three dictionaries start out empty. */
    constructor ()
      ensures Valid()
      ensures handlerByType == map[] && typeOrder == [] && handlerByName == map[] && handlerSingletons == map[]
    {
      handlerByType := map[];
      typeOrder := [];
      handlerByName := map[];
      handlerSingletons := map[];
    }

    /** `GetSingleton(handlerType)`: throws for a type that does not
        implement `IMenuHandler`; otherwise returns the instance already
        made for the type, or makes, stores and returns a new one. */
    method GetSingleton(handlerType: ClrType) returns (r: Outcome<MenuHandler>)
      requires Valid()
      modifies this`handlerSingletons
      ensures Valid()
      ensures !handlerType.implementsMenuHandler ==>
        r == Threw && handlerSingletons == old(handlerSingletons)
      ensures handlerType.implementsMenuHandler && handlerType in old(handlerSingletons) ==>
        r == Ok(old(handlerSingletons)[handlerType]) && handlerSingletons == old(handlerSingletons)
      ensures handlerType.implementsMenuHandler && handlerType !in old(handlerSingletons) ==>
        && r.Ok? && fresh(r.value) && r.value.handlerType == handlerType
        && handlerSingletons == old(handlerSingletons)[handlerType := r.value]
    {
      if !handlerType.implementsMenuHandler {
        return Threw;
      }
      if handlerType in handlerSingletons {
        return Ok(handlerSingletons[handlerType]);
      }
      var handler := new MenuHandler(handlerType);
      handlerSingletons := handlerSingletons[handlerType := handler];
      return Ok(handler);
    }

    /** `Add(Type menuType, IMenuHandler handler)`: registers or overwrites
        the handler for the type; a new key goes to the end of the
        enumeration order, an overwritten key keeps its place. */
    method AddInstance(menuType: ClrType, handler: MenuHandler)
      requires Valid()
      modifies this`handlerByType, this`typeOrder
      ensures Valid()
      ensures handlerByType == old(handlerByType)[menuType := handler]
      ensures typeOrder == if menuType in old(handlerByType) then old(typeOrder) else old(typeOrder) + [menuType]
    {
      if menuType !in handlerByType {
        typeOrder := typeOrder + [menuType];
      }
      handlerByType := handlerByType[menuType := handler];
    }

    /** `Add(Type menuType, Type handlerType)`: registers the shared
        instance of the handler type for the menu type, so two menu types
        given the same handler type share one instance. When the handler
        type is rejected the exception leaves the type table untouched. */
    method AddType(menuType: ClrType, handlerType: ClrType) returns (threw: bool)
      requires Valid()
      modifies this`handlerByType, this`typeOrder, this`handlerSingletons
      ensures Valid()
      ensures threw <==> !handlerType.implementsMenuHandler
      ensures forall t :: t in old(handlerSingletons) ==> t in handlerSingletons && handlerSingletons[t] == old(handlerSingletons)[t]
      ensures threw ==> handlerSingletons == old(handlerSingletons)
      ensures !threw ==> handlerSingletons.Keys == old(handlerSingletons).Keys + {handlerType}
      ensures threw ==> handlerByType == old(handlerByType) && typeOrder == old(typeOrder)
      ensures !threw ==>
        && handlerType in handlerSingletons
        && handlerByType == old(handlerByType)[menuType := handlerSingletons[handlerType]]
        && handlerByType[menuType].handlerType == handlerType
    {
      var singleton := GetSingleton(handlerType);
      if singleton.Threw? {
        return true;
      }
      AddInstance(menuType, singleton.value);
      return false;
    }

    /** `Add(string menuClass, Type handlerType)`: the same for a menu known
        only by its class name. */
    method AddName(menuClass: string, handlerType: ClrType) returns (threw: bool)
      requires Valid()
      modifies this`handlerByName, this`handlerSingletons
      ensures Valid()
      ensures threw <==> !handlerType.implementsMenuHandler
      ensures forall t :: t in old(handlerSingletons) ==> t in handlerSingletons && handlerSingletons[t] == old(handlerSingletons)[t]
      ensures threw ==> handlerSingletons == old(handlerSingletons)
      ensures !threw ==> handlerSingletons.Keys == old(handlerSingletons).Keys + {handlerType}
      ensures threw ==> handlerByName == old(handlerByName)
      ensures !threw ==>
        && handlerType in handlerSingletons
        && handlerByName == old(handlerByName)[menuClass := handlerSingletons[handlerType]]
        && handlerByName[menuClass].handlerType == handlerType
    {
      var singleton := GetSingleton(handlerType);
      if singleton.Threw? {
        return true;
      }
      handlerByName := handlerByName[menuClass := singleton.value];
      return false;
    }

    /** `TryGetHandler(Type menuType, out handler)`: the exact entry first,
        then a scan of the keys in enumeration order for the first proper
        ancestor of the type. */
    method TryGetHandler(menuType: ClrType) returns (found: bool, handler: MenuHandler?)
      requires Valid()
      ensures found <==> ResolveType(handlerByType, typeOrder, menuType).Some?
      ensures found ==> handler == ResolveType(handlerByType, typeOrder, menuType).value
      ensures !found ==> handler == null
    {
      if menuType in handlerByType {
        return true, handlerByType[menuType];
      }
      var i := 0;
      while i < |typeOrder|
        invariant 0 <= i <= |typeOrder|
        invariant forall j :: 0 <= j < i ==> !IsSubclassOf(menuType, typeOrder[j])
      {
        if IsSubclassOf(menuType, typeOrder[i]) {
          ghost var p := (k: ClrType) => IsSubclassOf(menuType, k);
          assert FirstIndexWhere(typeOrder, p) == i by {
            FirstIndexWhereIsFirstHit(typeOrder, p, i);
          }
          return true, handlerByType[typeOrder[i]];
        }
        i := i + 1;
      }
      return false, null;
    }

    /** `TryGetHandler(string menuClass, out handler)`: an exact name lookup
        with no fallback. */
    function TryGetHandlerByName(menuClass: string): (r: Option<MenuHandler>)
      reads this
      ensures r.Some? <==> menuClass in handlerByName
      ensures r.Some? ==> r.value == handlerByName[menuClass]
    {
      if menuClass in handlerByName then Some(handlerByName[menuClass]) else None
    }
  }

  /** A position satisfying `p` with no earlier position satisfying it is
      what `FirstIndexWhere` finds. */
  lemma {:induction false} FirstIndexWhereIsFirstHit<T>(s: seq<T>, p: T -> bool, i: int)
    requires 0 <= i < |s| && p(s[i])
    requires forall j :: 0 <= j < i ==> !p(s[j])
    ensures FirstIndexWhere(s, p) == i
  {
  }
}
