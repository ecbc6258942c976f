/** The table of menus added by other mods that the split prompt should
    also handle (`OtherMods`): per mod id, the menu class names to intercept
    and the handler type for each. */
module OtherModMenus {
  import opened Common
  import opened ClrTypes

  /** One element of the untyped `params object[]` argument list. */
  datatype Arg = Str(s: string) | Typ(t: ClrType)

  /** A menu class name and the handler type that serves it. */
  datatype MenuAndHandler = MenuAndHandler(menuClass: string, handlerType: ClrType)

  /** `Add`'s pairing of the argument list, or `None` when the loop would
      throw: an odd count reads past the end, and an element of the wrong
      kind fails its cast. */
  function PairUp(args: seq<Arg>): Option<seq<MenuAndHandler>>
    decreases |args|
  {
    if |args| == 0 then Some([])
    else if |args| == 1 || !args[0].Str? || !args[1].Typ? then None
    else match PairUp(args[2..])
      case None => None
      case Some(rest) => Some([MenuAndHandler(args[0].s, args[1].t)] + rest)
  }

  /** Whether the argument list is well formed: even in length, a name at
      every even position and a type at every odd one. */
  predicate WellPaired(args: seq<Arg>) {
    && |args| % 2 == 0
    && forall j :: 0 <= j < |args| ==> (if j % 2 == 0 then args[j].Str? else args[j].Typ?)
  }

  /** Pairing succeeds exactly on well-formed lists, and then yields
      `|args| / 2` entries whose `j`-th is `(args[2j], args[2j+1])`. */
  lemma {:induction false} PairUpIsPairwise(args: seq<Arg>)
    ensures PairUp(args).Some? <==> WellPaired(args)
    ensures PairUp(args).Some? ==>
      var l := PairUp(args).value;
      && |l| == |args| / 2
      && forall j :: 0 <= j < |l| ==>
           args[2 * j].Str? && args[2 * j + 1].Typ? &&
           l[j] == MenuAndHandler(args[2 * j].s, args[2 * j + 1].t)
    decreases |args|
  {
    if |args| >= 2 {
      var rest := args[2..];
      PairUpIsPairwise(rest);
      if WellPaired(args) {
        assert WellPaired(rest) by {
          forall j | 0 <= j < |rest|
            ensures if j % 2 == 0 then rest[j].Str? else rest[j].Typ?
          {
            assert rest[j] == args[j + 2];
          }
        }
      }
      if args[0].Str? && args[1].Typ? && WellPaired(rest) {
        assert WellPaired(args) by {
          forall j | 0 <= j < |args|
            ensures if j % 2 == 0 then args[j].Str? else args[j].Typ?
          {
            if j >= 2 {
              assert args[j] == rest[j - 2];
            }
          }
        }
      }
      if PairUp(args).Some? {
        var l := PairUp(args).value;
        forall j | 0 <= j < |l|
          ensures args[2 * j].Str? && args[2 * j + 1].Typ?
          ensures l[j] == MenuAndHandler(args[2 * j].s, args[2 * j + 1].t)
        {
          if j > 0 {
            assert l[j] == PairUp(rest).value[j - 1];
            assert args[2 * j] == rest[2 * (j - 1)];
            assert args[2 * j + 1] == rest[2 * (j - 1) + 1];
          }
        }
      }
    } else if |args| == 1 {
      assert !WellPaired(args);
    }
  }

  class OtherMods {
    /** `MenuAndHandlerByMods`: mod id to its list of menus. */
    var menuAndHandlerByMods: map<string, seq<MenuAndHandler>>

    /** The static constructor: registers one mod, the item spawner, whose
        item menu is served by the item-grab handler. */
    constructor (itemGrabMenuHandler: ClrType)
      ensures menuAndHandlerByMods ==
        map["CJBok.ItemSpawner" := [MenuAndHandler("CJBItemSpawner.Framework.ItemMenu", itemGrabMenuHandler)]]
    {
      menuAndHandlerByMods := map[];
      new;
      var args := [Str("CJBItemSpawner.Framework.ItemMenu"), Typ(itemGrabMenuHandler)];
      PairUpIsPairwise(args);
      assert WellPaired(args);
      assert PairUp(args).value == [MenuAndHandler("CJBItemSpawner.Framework.ItemMenu", itemGrabMenuHandler)];
      var threw := Add("CJBok.ItemSpawner", args);
    }

    /** `Add(modUniqueID, params args)`: pairs the arguments up with a
        stride-2 loop and stores the list under the mod id, replacing any
        earlier list. When the loop throws, the table is left as it was. */
    method Add(modUniqueID: string, args: seq<Arg>) returns (threw: bool)
      modifies this`menuAndHandlerByMods
      ensures threw <==> PairUp(args).None?
      ensures !threw ==> menuAndHandlerByMods == old(menuAndHandlerByMods)[modUniqueID := PairUp(args).value]
      ensures threw ==> menuAndHandlerByMods == old(menuAndHandlerByMods)
    {
      PairUpIsPairwise(args);
      var lst: seq<MenuAndHandler> := [];
      var i := 0;
      while i < |args|
        invariant 0 <= i && i % 2 == 0
        invariant i <= |args| || (i == |args| + 1)
        invariant i <= |args| ==> |lst| == i / 2
        invariant forall j :: 0 <= j < |lst| ==>
          2 * j + 1 < |args| && args[2 * j].Str? && args[2 * j + 1].Typ? &&
          lst[j] == MenuAndHandler(args[2 * j].s, args[2 * j + 1].t)
        invariant i > |args| ==> false
      {
        if i + 1 >= |args| || !args[i].Str? || !args[i + 1].Typ? {
          assert !WellPaired(args) by {
            if i + 1 >= |args| {
              assert |args| == i + 1;
            } else if !args[i].Str? {
              assert i % 2 == 0;
            } else {
              assert (i + 1) % 2 == 1;
            }
          }
          return true;
        }
        lst := lst + [MenuAndHandler(args[i].s, args[i + 1].t)];
        i := i + 2;
      }
      assert WellPaired(args) by {
        forall j | 0 <= j < |args|
          ensures if j % 2 == 0 then args[j].Str? else args[j].Typ?
        {
          var p := j / 2;
          assert p < |lst|;
          if j % 2 == 0 {
            assert j == 2 * p;
          } else {
            assert j == 2 * p + 1;
          }
        }
      }
      assert lst == PairUp(args).value;
      menuAndHandlerByMods := menuAndHandlerByMods[modUniqueID := lst];
      return false;
    }

    /** `AsEnumerable`: the registered entries, each mod id with its list;
        the enumeration order is not modelled. */
    function AsEnumerable(): (r: set<(string, seq<MenuAndHandler>)>)
      reads this
      ensures forall id, l :: (id, l) in r <==> id in menuAndHandlerByMods && menuAndHandlerByMods[id] == l
      ensures |r| == |menuAndHandlerByMods|
    {
      MapEntries(menuAndHandlerByMods)
    }
  }

  /** The key-value pairs of a map, as a set. */
  function MapEntries(m: map<string, seq<MenuAndHandler>>): (r: set<(string, seq<MenuAndHandler>)>)
    ensures forall k, v :: (k, v) in r <==> k in m && m[k] == v
    ensures |r| == |m|
  {
    MapEntriesSize(m);
    set k | k in m :: (k, m[k])
  }

  /** A map has as many entries as keys. */
  lemma {:induction false} MapEntriesSize(m: map<string, seq<MenuAndHandler>>)
    ensures |set k | k in m :: (k, m[k])| == |m|
    decreases |m|
  {
    if |m| > 0 {
      var k :| k in m;
      var rest := m - {k};
      MapEntriesSize(rest);
      var s := set x | x in m :: (x, m[x]);
      var t := set x | x in rest :: (x, rest[x]);
      forall e | e in s
        ensures e in t + {(k, m[k])}
      {
        var x :| x in m && e == (x, m[x]);
        if x != k {
          assert x in rest && rest[x] == m[x];
        }
      }
      forall e | e in t
        ensures e in s
      {
        var x :| x in rest && e == (x, rest[x]);
        assert x in m && m[x] == rest[x];
      }
      assert s == t + {(k, m[k])};
      assert (k, m[k]) !in t;
    }
  }
}
