/** The advisory filter run before the bookmarks page is shown: which
    document actions are offered for the current selection. */
module PermissionFilter {
  import opened RubyValues
  import opened ActionRegistry
  import opened Authorization

  /** The actions left after removing, from a copy of the catalogue, each one
      that some selected item is refused, in the order the filter removes them. */
  function Offered(actions: seq<Entry>, ctx: Context, ids: seq<Id>): (r: seq<Entry>)
    ensures |r| <= |actions|
  {
    var a := actions;
    var a := if AnyCannot(ctx, Destroy, ids) then Without(a, DELETE) else a;
    var a := if AnyCannot(ctx, Unpublish, ids) then Without(a, UNPUBLISH) else a;
    var a := if AnyCannot(ctx, Update, ids) then Without(Without(a, PUBLISH), MOVE) else a;
    if AnyCannot(ctx, UpdateAccessControl, ids) then Without(a, UPDATE_ACCESS_CONTROL) else a
  }

  /** The capability whose absence on any selected item hides an action;
      publish and move share `update`, and other actions are never hidden. */
  function Gate(name: string): Option<Capability>
  {
    if name == DELETE then Some(Destroy)
    else if name == UNPUBLISH then Some(Unpublish)
    else if name == PUBLISH || name == MOVE then Some(Update)
    else if name == UPDATE_ACCESS_CONTROL then Some(UpdateAccessControl)
    else None
  }

  predicate Blocked(ctx: Context, ids: seq<Id>, name: string)
  {
    Gate(name).Some? && AnyCannot(ctx, Gate(name).value, ids)
  }

  /** An action is offered exactly when the catalogue has it and no selected
      item is refused its gating capability. */
  lemma OfferedNames(actions: seq<Entry>, ctx: Context, ids: seq<Id>, n: string)
    ensures n in Names(Offered(actions, ctx, ids)) <==> n in Names(actions) && !Blocked(ctx, ids, n)
  {
    var d, u, p, c := AnyCannot(ctx, Destroy, ids), AnyCannot(ctx, Unpublish, ids),
      AnyCannot(ctx, Update, ids), AnyCannot(ctx, UpdateAccessControl, ids);
    var a1 := if d then Without(actions, DELETE) else actions;
    DropIfNames(actions, d, DELETE, n);
    var a2 := if u then Without(a1, UNPUBLISH) else a1;
    DropIfNames(a1, u, UNPUBLISH, n);
    var b := if p then Without(a2, PUBLISH) else a2;
    DropIfNames(a2, p, PUBLISH, n);
    var a3 := if p then Without(b, MOVE) else b;
    DropIfNames(b, p, MOVE, n);
    DropIfNames(a3, c, UPDATE_ACCESS_CONTROL, n);
    assert Offered(actions, ctx, ids) == if c then Without(a3, UPDATE_ACCESS_CONTROL) else a3;
    assert Blocked(ctx, ids, n) <==> (d && n == DELETE) || (u && n == UNPUBLISH) || (p && (n == PUBLISH || n == MOVE)) || (c && n == UPDATE_ACCESS_CONTROL);
  }

  /** An entry is offered exactly when it is catalogued, with the same
      options, and no selected item is refused its gating capability. */
  lemma OfferedEntries(actions: seq<Entry>, ctx: Context, ids: seq<Id>, x: Entry)
    ensures x in Offered(actions, ctx, ids) <==> x in actions && !Blocked(ctx, ids, x.name)
  {
    var d, u, p, c := AnyCannot(ctx, Destroy, ids), AnyCannot(ctx, Unpublish, ids),
      AnyCannot(ctx, Update, ids), AnyCannot(ctx, UpdateAccessControl, ids);
    var a1 := if d then Without(actions, DELETE) else actions;
    WithoutEntries(actions, DELETE, x);
    var a2 := if u then Without(a1, UNPUBLISH) else a1;
    WithoutEntries(a1, UNPUBLISH, x);
    var b := Without(a2, PUBLISH);
    WithoutEntries(a2, PUBLISH, x);
    WithoutEntries(b, MOVE, x);
    var a3 := if p then Without(b, MOVE) else a2;
    WithoutEntries(a3, UPDATE_ACCESS_CONTROL, x);
    assert Offered(actions, ctx, ids) == if c then Without(a3, UPDATE_ACCESS_CONTROL) else a3;
    var n := x.name;
    assert Blocked(ctx, ids, n) <==> (d && n == DELETE) || (u && n == UNPUBLISH) || (p && (n == PUBLISH || n == MOVE)) || (c && n == UPDATE_ACCESS_CONTROL);
  }

  lemma DropIfNames(a: seq<Entry>, drop: bool, name: string, n: string)
    ensures n in Names(if drop then Without(a, name) else a) <==> n in Names(a) && !(drop && n == name)
  {
    if drop {
      WithoutNames(a, name, n);
    }
  }

  /** The offered actions are the catalogue with some entries left out: same
      options, same order. */
  lemma OfferedIsSubsequence(actions: seq<Entry>, ctx: Context, ids: seq<Id>)
    ensures IsSubsequence(Offered(actions, ctx, ids), actions)
  {
    var a0 := actions;
    var a1 := if AnyCannot(ctx, Destroy, ids) then Without(a0, DELETE) else a0;
    WithoutIsSubsequence(a0, DELETE);
    SubsequenceReflexive(a0);
    var a2 := if AnyCannot(ctx, Unpublish, ids) then Without(a1, UNPUBLISH) else a1;
    WithoutIsSubsequence(a1, UNPUBLISH);
    SubsequenceReflexive(a1);
    SubsequenceTransitive(a2, a1, a0);
    var b := Without(a2, PUBLISH);
    WithoutIsSubsequence(a2, PUBLISH);
    WithoutIsSubsequence(b, MOVE);
    SubsequenceTransitive(Without(b, MOVE), b, a2);
    var a3 := if AnyCannot(ctx, Update, ids) then Without(b, MOVE) else a2;
    SubsequenceReflexive(a2);
    SubsequenceTransitive(a3, a2, a0);
    var a4 := if AnyCannot(ctx, UpdateAccessControl, ids) then Without(a3, UPDATE_ACCESS_CONTROL) else a3;
    WithoutIsSubsequence(a3, UPDATE_ACCESS_CONTROL);
    SubsequenceReflexive(a3);
    SubsequenceTransitive(a4, a3, a0);
  }

  lemma {:induction false} SubsequenceReflexive<T>(a: seq<T>)
    ensures IsSubsequence(a, a)
  {
    if a != [] {
      SubsequenceReflexive(a[1..]);
    }
  }

  /** With nothing selected, every catalogued action is offered. */
  lemma EmptySelectionOffersAll(actions: seq<Entry>, ctx: Context)
    ensures Offered(actions, ctx, []) == actions
  {
  }

  /** On the configured catalogue, publish and move are offered together,
      exactly when every selected item may be updated; delete, unpublish and
      update_access_control each exactly when every item has its capability. */
  lemma ConfiguredOffers(inherited: seq<Entry>, ctx: Context, ids: seq<Id>)
    ensures var o := Names(Offered(Configured(inherited), ctx, ids));
      && (PUBLISH in o <==> !AnyCannot(ctx, Update, ids))
      && (MOVE in o <==> !AnyCannot(ctx, Update, ids))
      && (DELETE in o <==> !AnyCannot(ctx, Destroy, ids))
      && (UNPUBLISH in o <==> !AnyCannot(ctx, Unpublish, ids))
      && (UPDATE_ACCESS_CONTROL in o <==> !AnyCannot(ctx, UpdateAccessControl, ids))
      && EMAIL !in o && CITATION !in o
  {
    ConfiguredOffersOne(inherited, ctx, ids, PUBLISH);
    ConfiguredOffersOne(inherited, ctx, ids, MOVE);
    ConfiguredOffersOne(inherited, ctx, ids, DELETE);
    ConfiguredOffersOne(inherited, ctx, ids, UNPUBLISH);
    ConfiguredOffersOne(inherited, ctx, ids, UPDATE_ACCESS_CONTROL);
    ConfiguredOffersOne(inherited, ctx, ids, EMAIL);
    ConfiguredOffersOne(inherited, ctx, ids, CITATION);
  }

  lemma ConfiguredOffersOne(inherited: seq<Entry>, ctx: Context, ids: seq<Id>, n: string)
    ensures n in Names(Offered(Configured(inherited), ctx, ids)) <==>
      (n in ADDED || (n in Names(inherited) && n != EMAIL && n != CITATION)) && !Blocked(ctx, ids, n)
  {
    ConfiguredNamesAt(inherited, n);
    OfferedNames(Configured(inherited), ctx, ids, n);
  }

  /** An offered action is one its handler would grant to every selected
      item (for move, past the collection check); unpublish needs `update`
      as well, which the filter guarantees only when publish is offered too. */
  lemma OfferedActionsAcceptAll(actions: seq<Entry>, ctx: Context, ids: seq<Id>, collectionName: string)
    ensures var o := Names(Offered(actions, ctx, ids));
      && (UPDATE_ACCESS_CONTROL in o ==> Triage(AccessControlHandler, ctx, ids).successIds == ids)
      && (DELETE in o ==> Triage(DeleteHandler, ctx, ids).successIds == ids)
      && (MOVE in o ==> Triage(MoveHandler(collectionName), ctx, ids).successIds == ids)
      && (PUBLISH in o ==> Triage(StatusHandler(Str(PUBLISH)), ctx, ids).successIds == ids)
      && (UNPUBLISH in o && PUBLISH in o ==> Triage(StatusHandler(Str(UNPUBLISH)), ctx, ids).successIds == ids)
  {
    var o := Names(Offered(actions, ctx, ids));
    OfferedNames(actions, ctx, ids, UPDATE_ACCESS_CONTROL);
    OfferedNames(actions, ctx, ids, DELETE);
    OfferedNames(actions, ctx, ids, MOVE);
    OfferedNames(actions, ctx, ids, PUBLISH);
    OfferedNames(actions, ctx, ids, UNPUBLISH);
    if UPDATE_ACCESS_CONTROL in o {
      AllAccepted(AccessControlHandler, ctx, ids);
    }
    if DELETE in o {
      AllAccepted(DeleteHandler, ctx, ids);
    }
    if MOVE in o {
      AllAccepted(MoveHandler(collectionName), ctx, ids);
    }
    if PUBLISH in o {
      AllAccepted(StatusHandler(Str(PUBLISH)), ctx, ids);
      if UNPUBLISH in o {
        AllAccepted(StatusHandler(Str(UNPUBLISH)), ctx, ids);
      }
    }
  }

  /** The filter gates unpublish on `unpublish` alone, while the handler also
      asks for `update`: when every selected item may be unpublished, an item
      that may not be updated is offered unpublish and then denied it. */
  lemma UnpublishOfferedYetDenied(inherited: seq<Entry>, ctx: Context, ids: seq<Id>, x: Id)
    requires !AnyCannot(ctx, Unpublish, ids) && x in ids && !CanOn(ctx, Update, x)
    ensures UNPUBLISH in Names(Offered(Configured(inherited), ctx, ids))
    ensures x !in Triage(StatusHandler(Str(UNPUBLISH)), ctx, ids).successIds
    ensures x in IdsOf(Triage(StatusHandler(Str(UNPUBLISH)), ctx, ids).errors)
  {
    ConfiguredOffers(inherited, ctx, ids);
    UnpublishRule(ctx, ids, x);
  }

  /** Such an item exists: one that may be unpublished and nothing else. */
  lemma UnpublishOfferedYetDeniedWitness()
    ensures var ctx := Context(id => MediaObject(id, "t"), v => Collection(v, "c"), (cap, r) => cap == Unpublish);
      var ids := ["a"];
      && UNPUBLISH in Names(Offered(Configured([]), ctx, ids))
      && Triage(StatusHandler(Str(UNPUBLISH)), ctx, ids).successIds == []
      && IdsOf(Triage(StatusHandler(Str(UNPUBLISH)), ctx, ids).errors) == ids
  {
    var ctx := Context(id => MediaObject(id, "t"), v => Collection(v, "c"), (cap, r) => cap == Unpublish);
    var ids := ["a"];
    ConfiguredNames([], EMAIL);
    assert ADDED[3] == UNPUBLISH;
    OfferedNames(Configured([]), ctx, ids, UNPUBLISH);
    assert !AnyCannot(ctx, Unpublish, ids);
    assert ids[..0] == [];
    assert !CanOn(ctx, Update, "a");
  }
}
