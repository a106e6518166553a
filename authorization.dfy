/** Per-item authorisation of the four bulk handlers: which capability each
    asks about an item, which items it accepts, which it denies, and the
    outcome of walking a whole selection in order. */
module Authorization {
  import opened RubyValues

  type Id = string

  /** The abilities the controller asks about (`can? :update, obj`). */
  datatype Capability = Read | Update | Destroy | Unpublish | UpdateAccessControl

  datatype MediaObject = MediaObject(id: Id, title: string)

  datatype Collection = Collection(id: Value, name: string)

  /** What an ability question is asked about. */
  datatype Resource = MediaObjectResource(mediaObject: MediaObject) | CollectionResource(collection: Collection)

  /** The collaborators the controller consults and does not own:
      `MediaObject.find`, `Admin::Collection.find`, and the ability rules
      behind `can?`. */
  datatype Context = Context(
    findMediaObject: Id -> MediaObject,
    findCollection: Value -> Collection,
    can: (Capability, Resource) -> bool)

  /** `can? cap, MediaObject.find(id)`. */
  predicate CanOn(ctx: Context, cap: Capability, id: Id)
  {
    ctx.can(cap, MediaObjectResource(ctx.findMediaObject(id)))
  }

  /** `mos.any? { |mo| cannot? cap, mo }`. */
  predicate AnyCannot(ctx: Context, cap: Capability, ids: seq<Id>): (r: bool)
    ensures ids == [] ==> !r
  {
    exists i :: 0 <= i < |ids| && !CanOn(ctx, cap, ids[i])
  }

  /** One "permission denied" line of an alert: the item's title and id. */
  datatype Denial = PermissionDenied(title: string, id: Id)

  /** The denial line of an item: the title of the media object found for
      the selected id, and that id as selected. */
  function DenialOf(ctx: Context, id: Id): (d: Denial)
    ensures d.id == id
    ensures d.title == ctx.findMediaObject(id).title
  {
    PermissionDenied(ctx.findMediaObject(id).title, id)
  }

  /** The bulk handler being run, with the request values it depends on:
      the status taken from the request's action for `status_action`, and the
      target collection's name for `move_action`. */
  datatype Handler =
    | AccessControlHandler
    | StatusHandler(status: Value)
    | DeleteHandler
    | MoveHandler(collectionName: string)

  /** Where a handler puts one item: into `success_ids`, into `errors`, or,
      for a status other than publish and unpublish, nowhere. */
  datatype Verdict = Accept | Deny | Skip

  /** The capabilities a handler needs on an item before it accepts it. For
      a status other than publish and unpublish this is `update` alone,
      whose absence is still reported. */
  function Needs(h: Handler): set<Capability>
  {
    match h
    case AccessControlHandler => {UpdateAccessControl}
    case StatusHandler(status) => if status == Str("unpublish") then {Update, Unpublish} else {Update}
    case DeleteHandler => {Destroy}
    case MoveHandler(_) => {Update}
  }

  /** One handler's verdict on one item: denied when a needed capability is
      missing, otherwise accepted, except that an unknown status skips it. */
  function Judge(h: Handler, ctx: Context, id: Id): (v: Verdict)
    ensures v == Deny <==> exists c :: c in Needs(h) && !CanOn(ctx, c, id)
    ensures v == Accept <==> Decisive(h) && forall c :: c in Needs(h) ==> CanOn(ctx, c, id)
    ensures v == Skip <==> !Decisive(h) && CanOn(ctx, Update, id)
  {
    match h
    case AccessControlHandler =>
      if !CanOn(ctx, UpdateAccessControl, id) then Deny else Accept
    case StatusHandler(status) =>
      if !CanOn(ctx, Update, id) then Deny
      else if status == Str("publish") then Accept
      else if status == Str("unpublish") then (if CanOn(ctx, Unpublish, id) then Accept else Deny)
      else Skip
    case DeleteHandler =>
      if CanOn(ctx, Destroy, id) then Accept else Deny
    case MoveHandler(_) =>
      if !CanOn(ctx, Update, id) then Deny else Accept
  }

  /** One ability question put while a handler runs. */
  datatype Check = Check(cap: Capability, resource: Resource)

  /** The ability questions a handler puts about one item, in order. */
  function Asked(h: Handler, ctx: Context, id: Id): (qs: seq<Check>)
    ensures 1 <= |qs| <= 2
    ensures forall k :: 0 <= k < |qs| ==>
      qs[k].resource == MediaObjectResource(ctx.findMediaObject(id)) && qs[k].cap in Needs(h)
    ensures |qs| == 2 <==> h == StatusHandler(Str("unpublish")) && CanOn(ctx, Update, id)
    ensures qs[0].cap == (if h.AccessControlHandler? then UpdateAccessControl else if h.DeleteHandler? then Destroy else Update)
    ensures |qs| == 2 ==> qs[1].cap == Unpublish
  {
    var r := MediaObjectResource(ctx.findMediaObject(id));
    match h
    case AccessControlHandler => [Check(UpdateAccessControl, r)]
    case StatusHandler(status) =>
      if CanOn(ctx, Update, id) && status == Str("unpublish") then [Check(Update, r), Check(Unpublish, r)]
      else [Check(Update, r)]
    case DeleteHandler => [Check(Destroy, r)]
    case MoveHandler(_) => [Check(Update, r)]
  }

  /** Handlers that put every item somewhere. */
  predicate Decisive(h: Handler)
  {
    h.StatusHandler? ==> h.status == Str("publish") || h.status == Str("unpublish")
  }

  /** What walking the selection builds: `success_ids`, `errors`, and the
      ability questions asked on the way. */
  datatype Outcome = Outcome(successIds: seq<Id>, errors: seq<Denial>, checks: seq<Check>)

  /** The loop body of a handler, applied to one more item. */
  function Step(h: Handler, ctx: Context, o: Outcome, id: Id): (r: Outcome)
    ensures |o.successIds| <= |r.successIds| && r.successIds[..|o.successIds|] == o.successIds
    ensures |o.errors| <= |r.errors| && r.errors[..|o.errors|] == o.errors
    ensures |r.successIds| + |r.errors| == |o.successIds| + |o.errors| + (if Judge(h, ctx, id) == Skip then 0 else 1)
    ensures r.checks == o.checks + Asked(h, ctx, id)
  {
    var checks := o.checks + Asked(h, ctx, id);
    match Judge(h, ctx, id)
    case Accept => Outcome(o.successIds + [id], o.errors, checks)
    case Deny => Outcome(o.successIds, o.errors + [DenialOf(ctx, id)], checks)
    case Skip => Outcome(o.successIds, o.errors, checks)
  }

  /** The outcome of walking `ids` in order. Together the two lists never
      outnumber the selection, and a decisive handler places every item;
      where each occurrence goes is `Partition` and `Placement`. */
  function Triage(h: Handler, ctx: Context, ids: seq<Id>): (o: Outcome)
    ensures |o.successIds| + |o.errors| <= |ids|
    ensures Decisive(h) ==> |o.successIds| + |o.errors| == |ids|
    decreases |ids|
  {
    if ids == [] then Outcome([], [], [])
    else Step(h, ctx, Triage(h, ctx, ids[..|ids| - 1]), ids[|ids| - 1])
  }

  // ---------------------------------------------------------------------
  // A reference description of the outcome, element by element

  /** The items of `ids`, in order, that `h` gives the verdict `v`. */
  function WithVerdict(h: Handler, ctx: Context, ids: seq<Id>, v: Verdict): seq<Id>
  {
    if ids == [] then []
    else (if Judge(h, ctx, ids[0]) == v then [ids[0]] else []) + WithVerdict(h, ctx, ids[1..], v)
  }

  function DenialsOf(ctx: Context, ids: seq<Id>): (ds: seq<Denial>)
    ensures |ds| == |ids|
    ensures forall k :: 0 <= k < |ids| ==> ds[k] == DenialOf(ctx, ids[k])
  {
    if ids == [] then [] else [DenialOf(ctx, ids[0])] + DenialsOf(ctx, ids[1..])
  }

  function IdsOf(ds: seq<Denial>): (ids: seq<Id>)
    ensures |ids| == |ds|
    ensures forall k :: 0 <= k < |ds| ==> ids[k] == ds[k].id
  {
    if ds == [] then [] else [ds[0].id] + IdsOf(ds[1..])
  }

  function ChecksOf(h: Handler, ctx: Context, ids: seq<Id>): seq<Check>
  {
    if ids == [] then [] else Asked(h, ctx, ids[0]) + ChecksOf(h, ctx, ids[1..])
  }

  /** `s` is `a` and `b` shuffled together, each keeping its own order: every
      element of `s` is taken from exactly one of them. */
  predicate Interleaves<T(==)>(s: seq<T>, a: seq<T>, b: seq<T>)
    decreases |s|
  {
    if s == [] then a == [] && b == []
    else
      || (a != [] && a[0] == s[0] && Interleaves(s[1..], a[1..], b))
      || (b != [] && b[0] == s[0] && Interleaves(s[1..], a, b[1..]))
  }

  lemma {:induction false} WithVerdictAppend(h: Handler, ctx: Context, a: seq<Id>, b: seq<Id>, v: Verdict)
    ensures WithVerdict(h, ctx, a + b, v) == WithVerdict(h, ctx, a, v) + WithVerdict(h, ctx, b, v)
  {
    if a == [] {
      assert a + b == b;
    } else {
      assert (a + b)[1..] == a[1..] + b;
      WithVerdictAppend(h, ctx, a[1..], b, v);
    }
  }

  lemma {:induction false} DenialsOfAppend(ctx: Context, a: seq<Id>, b: seq<Id>)
    ensures DenialsOf(ctx, a + b) == DenialsOf(ctx, a) + DenialsOf(ctx, b)
  {
  }

  lemma {:induction false} ChecksOfAppend(h: Handler, ctx: Context, a: seq<Id>, b: seq<Id>)
    ensures ChecksOf(h, ctx, a + b) == ChecksOf(h, ctx, a) + ChecksOf(h, ctx, b)
  {
    if a == [] {
      assert a + b == b;
    } else {
      assert (a + b)[1..] == a[1..] + b;
      ChecksOfAppend(h, ctx, a[1..], b);
    }
  }

  /** The loop's outcome, item by item: `success_ids` is exactly the accepted
      items in selection order, `errors` one denial per denied item in
      selection order, and the questions asked are each item's in turn. */
  lemma TriageCharacterised(h: Handler, ctx: Context, ids: seq<Id>)
    ensures Triage(h, ctx, ids).successIds == WithVerdict(h, ctx, ids, Accept)
    ensures Triage(h, ctx, ids).errors == DenialsOf(ctx, WithVerdict(h, ctx, ids, Deny))
    ensures Triage(h, ctx, ids).checks == ChecksOf(h, ctx, ids)
  {
    TriageSuccesses(h, ctx, ids);
    TriageErrors(h, ctx, ids);
    TriageChecks(h, ctx, ids);
  }

  lemma {:induction false} TriageSuccesses(h: Handler, ctx: Context, ids: seq<Id>)
    ensures Triage(h, ctx, ids).successIds == WithVerdict(h, ctx, ids, Accept)
    decreases |ids|
  {
    if ids != [] {
      var init, last := ids[..|ids| - 1], ids[|ids| - 1];
      assert init + [last] == ids;
      TriageSuccesses(h, ctx, init);
      WithVerdictAppend(h, ctx, init, [last], Accept);
    }
  }

  lemma {:induction false} TriageErrors(h: Handler, ctx: Context, ids: seq<Id>)
    ensures Triage(h, ctx, ids).errors == DenialsOf(ctx, WithVerdict(h, ctx, ids, Deny))
    decreases |ids|
  {
    if ids != [] {
      var init, last := ids[..|ids| - 1], ids[|ids| - 1];
      assert init + [last] == ids;
      TriageErrors(h, ctx, init);
      WithVerdictAppend(h, ctx, init, [last], Deny);
      DenialsOfAppend(ctx, WithVerdict(h, ctx, init, Deny), WithVerdict(h, ctx, [last], Deny));
    }
  }

  lemma {:induction false} TriageChecks(h: Handler, ctx: Context, ids: seq<Id>)
    ensures Triage(h, ctx, ids).checks == ChecksOf(h, ctx, ids)
    decreases |ids|
  {
    if ids != [] {
      var init, last := ids[..|ids| - 1], ids[|ids| - 1];
      assert init + [last] == ids;
      TriageChecks(h, ctx, init);
      ChecksOfAppend(h, ctx, init, [last]);
      assert ChecksOf(h, ctx, [last]) == Asked(h, ctx, last);
    }
  }

  lemma {:induction false} IdsOfDenials(ctx: Context, ids: seq<Id>)
    ensures IdsOf(DenialsOf(ctx, ids)) == ids
  {
  }

  /** How many times `x` is among the items given verdict `v`: as often as it
      is selected if that is its verdict, else never. */
  lemma {:induction false} WithVerdictCount(h: Handler, ctx: Context, ids: seq<Id>, v: Verdict, x: Id)
    ensures multiset(WithVerdict(h, ctx, ids, v))[x] == if Judge(h, ctx, x) == v then multiset(ids)[x] else 0
  {
    if ids != [] {
      WithVerdictCount(h, ctx, ids[1..], v, x);
      var head := if Judge(h, ctx, ids[0]) == v then [ids[0]] else [];
      assert WithVerdict(h, ctx, ids, v) == head + WithVerdict(h, ctx, ids[1..], v);
      assert multiset(WithVerdict(h, ctx, ids, v)) == multiset(head) + multiset(WithVerdict(h, ctx, ids[1..], v));
      assert ids == [ids[0]] + ids[1..];
      assert multiset(ids) == multiset([ids[0]]) + multiset(ids[1..]);
    }
  }

  /** A decisive handler's accepted and denied items shuffle back into the
      selection. */
  lemma {:induction false} DecisiveInterleaves(h: Handler, ctx: Context, ids: seq<Id>)
    requires Decisive(h)
    ensures Interleaves(ids, WithVerdict(h, ctx, ids, Accept), WithVerdict(h, ctx, ids, Deny))
  {
    if ids != [] {
      DecisiveInterleaves(h, ctx, ids[1..]);
      var a, b := WithVerdict(h, ctx, ids, Accept), WithVerdict(h, ctx, ids, Deny);
      if Judge(h, ctx, ids[0]) == Accept {
        assert a == [ids[0]] + WithVerdict(h, ctx, ids[1..], Accept);
        assert a[1..] == WithVerdict(h, ctx, ids[1..], Accept);
        assert b == WithVerdict(h, ctx, ids[1..], Deny);
      } else {
        assert Judge(h, ctx, ids[0]) == Deny;
        assert b == [ids[0]] + WithVerdict(h, ctx, ids[1..], Deny);
        assert b[1..] == WithVerdict(h, ctx, ids[1..], Deny);
        assert a == WithVerdict(h, ctx, ids[1..], Accept);
      }
    }
  }

  lemma {:induction false} InterleavesSplits<T>(s: seq<T>, a: seq<T>, b: seq<T>)
    requires Interleaves(s, a, b)
    ensures |a| + |b| == |s|
    ensures multiset(a) + multiset(b) == multiset(s)
    decreases |s|
  {
    if s != [] {
      assert s == [s[0]] + s[1..];
      if a != [] && a[0] == s[0] && Interleaves(s[1..], a[1..], b) {
        InterleavesSplits(s[1..], a[1..], b);
        assert a == [a[0]] + a[1..];
      } else {
        InterleavesSplits(s[1..], a, b[1..]);
        assert b == [b[0]] + b[1..];
      }
    }
  }

  /** Access control, delete, move and the publish/unpublish statuses place
      every selected item in exactly one of `success_ids` and `errors`, each
      in selection order. */
  lemma Partition(h: Handler, ctx: Context, ids: seq<Id>)
    requires Decisive(h)
    ensures var o := Triage(h, ctx, ids);
      && Interleaves(ids, o.successIds, IdsOf(o.errors))
      && |o.successIds| + |o.errors| == |ids|
      && multiset(o.successIds) + multiset(IdsOf(o.errors)) == multiset(ids)
  {
    TriageCharacterised(h, ctx, ids);
    IdsOfDenials(ctx, WithVerdict(h, ctx, ids, Deny));
    DecisiveInterleaves(h, ctx, ids);
    InterleavesSplits(ids, WithVerdict(h, ctx, ids, Accept), WithVerdict(h, ctx, ids, Deny));
  }

  /** How often `x` lands in `success_ids` and in `errors`. */
  lemma Placement(h: Handler, ctx: Context, ids: seq<Id>, x: Id)
    ensures multiset(Triage(h, ctx, ids).successIds)[x] ==
      if Judge(h, ctx, x) == Accept then multiset(ids)[x] else 0
    ensures multiset(IdsOf(Triage(h, ctx, ids).errors))[x] ==
      if Judge(h, ctx, x) == Deny then multiset(ids)[x] else 0
  {
    TriageCharacterised(h, ctx, ids);
    IdsOfDenials(ctx, WithVerdict(h, ctx, ids, Deny));
    WithVerdictCount(h, ctx, ids, Accept, x);
    WithVerdictCount(h, ctx, ids, Deny, x);
  }

  /** `access_control_action` accepts an item exactly when it may update its
      access control, and otherwise records one denial per occurrence. */
  lemma AccessControlRule(ctx: Context, ids: seq<Id>, x: Id)
    ensures var o := Triage(AccessControlHandler, ctx, ids);
      && (x in o.successIds <==> x in ids && CanOn(ctx, UpdateAccessControl, x))
      && multiset(IdsOf(o.errors))[x] == if CanOn(ctx, UpdateAccessControl, x) then 0 else multiset(ids)[x]
  {
    Placement(AccessControlHandler, ctx, ids, x);
  }

  /** `delete_action` accepts an item exactly when it may be destroyed. */
  lemma DeleteRule(ctx: Context, ids: seq<Id>, x: Id)
    ensures var o := Triage(DeleteHandler, ctx, ids);
      && (x in o.successIds <==> x in ids && CanOn(ctx, Destroy, x))
      && multiset(IdsOf(o.errors))[x] == if CanOn(ctx, Destroy, x) then 0 else multiset(ids)[x]
  {
    Placement(DeleteHandler, ctx, ids, x);
  }

  /** `move_action`, once past its collection check, accepts an item exactly
      when it may be updated. */
  lemma MoveRule(ctx: Context, name: string, ids: seq<Id>, x: Id)
    ensures var o := Triage(MoveHandler(name), ctx, ids);
      && (x in o.successIds <==> x in ids && CanOn(ctx, Update, x))
      && multiset(IdsOf(o.errors))[x] == if CanOn(ctx, Update, x) then 0 else multiset(ids)[x]
  {
    Placement(MoveHandler(name), ctx, ids, x);
  }

  /** Publishing needs nothing beyond `update`. */
  lemma PublishRule(ctx: Context, ids: seq<Id>, x: Id)
    ensures var o := Triage(StatusHandler(Str("publish")), ctx, ids);
      && (x in o.successIds <==> x in ids && CanOn(ctx, Update, x))
      && multiset(IdsOf(o.errors))[x] == if CanOn(ctx, Update, x) then 0 else multiset(ids)[x]
  {
    Placement(StatusHandler(Str("publish")), ctx, ids, x);
  }

  /** Unpublishing needs both `update` and `unpublish`; an item lacking either
      gets one denial per occurrence, never two. */
  lemma UnpublishRule(ctx: Context, ids: seq<Id>, x: Id)
    ensures var o := Triage(StatusHandler(Str("unpublish")), ctx, ids);
      && (x in o.successIds <==> x in ids && CanOn(ctx, Update, x) && CanOn(ctx, Unpublish, x))
      && multiset(IdsOf(o.errors))[x] ==
           if CanOn(ctx, Update, x) && CanOn(ctx, Unpublish, x) then 0 else multiset(ids)[x]
  {
    Placement(StatusHandler(Str("unpublish")), ctx, ids, x);
  }

  /** For any other status nothing is accepted, and only the items that may
      not be updated are denied. */
  lemma OtherStatusRule(ctx: Context, status: Value, ids: seq<Id>, x: Id)
    requires status != Str("publish") && status != Str("unpublish")
    ensures var o := Triage(StatusHandler(status), ctx, ids);
      && o.successIds == []
      && multiset(IdsOf(o.errors))[x] == if CanOn(ctx, Update, x) then 0 else multiset(ids)[x]
  {
    var h := StatusHandler(status);
    Placement(h, ctx, ids, x);
    TriageCharacterised(h, ctx, ids);
    NoneAccepted(h, ctx, ids);
  }

  lemma {:induction false} NoneAccepted(h: Handler, ctx: Context, ids: seq<Id>)
    requires forall i :: 0 <= i < |ids| ==> Judge(h, ctx, ids[i]) != Accept
    ensures WithVerdict(h, ctx, ids, Accept) == []
  {
    if ids != [] {
      NoneAccepted(h, ctx, ids[1..]);
    }
  }

  /** A handler that accepts every selected item passes the whole selection,
      in order, and reports no denial. */
  lemma AllAccepted(h: Handler, ctx: Context, ids: seq<Id>)
    requires forall i :: 0 <= i < |ids| ==> Judge(h, ctx, ids[i]) == Accept
    ensures Triage(h, ctx, ids).successIds == ids
    ensures Triage(h, ctx, ids).errors == []
  {
    TriageCharacterised(h, ctx, ids);
    AllAcceptedVerdicts(h, ctx, ids);
  }

  lemma {:induction false} AllAcceptedVerdicts(h: Handler, ctx: Context, ids: seq<Id>)
    requires forall i :: 0 <= i < |ids| ==> Judge(h, ctx, ids[i]) == Accept
    ensures WithVerdict(h, ctx, ids, Accept) == ids
    ensures WithVerdict(h, ctx, ids, Deny) == []
  {
    if ids != [] {
      AllAcceptedVerdicts(h, ctx, ids[1..]);
    }
  }
}
