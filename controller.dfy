/** The bookmarks controller: its catalogue of document actions, the filter
    that decides which of them to offer, and the four bulk handlers. */
module Bookmarks {
  import opened RubyValues
  import opened ActionRegistry
  import opened Authorization
  import opened Reporting
  import opened PermissionFilter

  /** A call of one of `MediaObject`'s bulk mutations, with its arguments. */
  datatype BulkCall =
    | AccessControlBulk(ids: seq<Id>, params: Params)
    | UpdateStatusBulk(ids: seq<Id>, userKey: string, params: Params)
    | DeleteBulk(ids: seq<Id>, params: Params)
    | MoveBulk(ids: seq<Id>, params: Params)

  const HIDDEN := "hidden"

  /** The parameters `access_control_action` hands on: a present `hidden`
      value becomes the boolean "it was the string true"; a blank or missing
      one, and every other parameter, is left alone. */
  function NormaliseHidden(params: Params): (p: Params)
    ensures p.Keys == params.Keys
    ensures forall k :: k in params && k != HIDDEN ==> p[k] == params[k]
    ensures HIDDEN in params ==> (p[HIDDEN] == Bool(true) <==> params[HIDDEN] == Str("true"))
    ensures Present(Get(params, HIDDEN)) ==> p[HIDDEN].Bool?
    ensures !Present(Get(params, HIDDEN)) ==> p == params
  {
    if Present(Get(params, HIDDEN)) then params[HIDDEN := Bool(Get(params, HIDDEN) == Str("true"))]
    else
      assert Get(params, HIDDEN) != Str("true") by { assert !IsSpace("true"[0]); }
      params
  }

  class BookmarksController {
    /** `MediaObject.find`, `Admin::Collection.find` and the current ability. */
    const ctx: Context
    /** `current_user.user_key`. */
    const userKey: string
    /** `self.document_actions`, the class-level catalogue. */
    var documentActions: seq<Entry>
    /** `@user_actions`, the actions offered on the bookmarks page. */
    var userActions: seq<Entry>
    var params: Params
    var flash: Flash
    /** The bulk mutations called so far, oldest first. */
    var bulkCalls: seq<BulkCall>
    /** The ability questions the handlers have asked, oldest first. */
    ghost var checks: seq<Check>

    /** Both catalogues are hashes. */
    ghost predicate Valid()
      reads this
    {
      DistinctNames(documentActions) && DistinctNames(userActions)
    }

    /** A controller whose class body has run on the inherited catalogue. */
    constructor (inherited: seq<Entry>, ctx: Context, userKey: string, params: Params)
      requires DistinctNames(inherited)
      ensures Valid()
      ensures this.ctx == ctx && this.userKey == userKey && this.params == params
      ensures documentActions == Configured(inherited)
      ensures userActions == [] && flash == map[] && bulkCalls == [] && checks == []
    {
      this.ctx := ctx;
      this.userKey := userKey;
      this.params := params;
      documentActions := inherited;
      userActions := [];
      flash := map[];
      bulkCalls := [];
      checks := [];
      new;
      ConfigureDocumentActions();
    }

    /** `self.document_actions.delete(name)`. */
    method DeleteDocumentAction(name: string)
      requires Valid()
      modifies this`documentActions
      ensures Valid()
      ensures documentActions == Without(old(documentActions), name)
      ensures name !in Names(documentActions)
    {
      WithoutKeepsDistinct(documentActions, name);
      WithoutNames(documentActions, name, name);
      documentActions := Without(documentActions, name);
    }

    /** `self.add_document_action(name, options)`. */
    method AddDocumentAction(name: string, options: ActionOptions)
      requires Valid()
      modifies this`documentActions
      ensures Valid()
      ensures documentActions == Put(old(documentActions), Entry(name, options))
      ensures name in Names(documentActions)
    {
      PutKeepsDistinct(documentActions, Entry(name, options));
      PutNames(documentActions, Entry(name, options), name);
      documentActions := Put(documentActions, Entry(name, options));
    }

    /** The class body: drop email and citation, register the five bulk
        actions in order. */
    method ConfigureDocumentActions()
      requires Valid()
      modifies this`documentActions
      ensures Valid()
      ensures documentActions == Configured(old(documentActions))
    {
      ghost var a0 := documentActions;
      DeleteDocumentAction(EMAIL);
      DeleteDocumentAction(CITATION);
      ghost var a1 := documentActions;
      AddDocumentAction(UPDATE_ACCESS_CONTROL, ActionOptions("access_control_action", None));
      AddDocumentAction(MOVE, ActionOptions("move_action", None));
      AddDocumentAction(PUBLISH, ActionOptions("status_action", Some("formless_document_action")));
      AddDocumentAction(UNPUBLISH, ActionOptions("status_action", Some("formless_document_action")));
      AddDocumentAction(DELETE, ActionOptions("delete_action", None));
      PutAllFive(a1);
    }

    /** `verify_permissions`: the offered actions are a copy of the catalogue
        with each action removed that some selected item is refused. */
    method VerifyPermissions(ids: seq<Id>)
      requires Valid()
      modifies this`userActions
      ensures Valid()
      ensures userActions == Offered(documentActions, ctx, ids)
    {
      userActions := documentActions;
      if AnyCannot(ctx, Destroy, ids) {
        WithoutKeepsDistinct(userActions, DELETE);
        userActions := Without(userActions, DELETE);
      }
      if AnyCannot(ctx, Unpublish, ids) {
        WithoutKeepsDistinct(userActions, UNPUBLISH);
        userActions := Without(userActions, UNPUBLISH);
      }
      if AnyCannot(ctx, Update, ids) {
        WithoutKeepsDistinct(userActions, PUBLISH);
        userActions := Without(userActions, PUBLISH);
        WithoutKeepsDistinct(userActions, MOVE);
        userActions := Without(userActions, MOVE);
      }
      if AnyCannot(ctx, UpdateAccessControl, ids) {
        WithoutKeepsDistinct(userActions, UPDATE_ACCESS_CONTROL);
        userActions := Without(userActions, UPDATE_ACCESS_CONTROL);
      }
    }

    /** The two flash lines every handler ends with: a success notice when
        something succeeded, an alert when something was denied. */
    method PostMessages(h: Handler, successIds: seq<Id>, errors: seq<Denial>)
      modifies this`flash
      ensures flash == Posted(old(flash), Summarise(h, successIds, errors))
    {
      if |successIds| > 0 {
        flash := flash[SuccessKey := SuccessNotice(h, |successIds|)];
      }
      if |errors| > 0 {
        flash := flash[AlertKey := AlertNotice(h, |errors|, errors)];
      }
    }

    /** `can? cap, resource`, remembered in `checks`. */
    method Can(cap: Capability, resource: Resource) returns (granted: bool)
      modifies this`checks
      ensures granted == ctx.can(cap, resource)
      ensures checks == old(checks) + [Check(cap, resource)]
    {
      granted := ctx.can(cap, resource);
      checks := checks + [Check(cap, resource)];
    }

    /** The ability questions one handler asks about one item, in the order
        its loop asks them, and where that item goes. */
    method Decide(h: Handler, id: Id) returns (verdict: Verdict, mediaObject: MediaObject)
      modifies this`checks
      ensures mediaObject == ctx.findMediaObject(id)
      ensures verdict == Judge(h, ctx, id)
      ensures checks == old(checks) + Asked(h, ctx, id)
    {
      mediaObject := ctx.findMediaObject(id);
      var resource := MediaObjectResource(mediaObject);
      match h
      case AccessControlHandler =>
        var granted := Can(UpdateAccessControl, resource);
        verdict := if granted then Accept else Deny;
      case StatusHandler(status) =>
        var mayUpdate := Can(Update, resource);
        if !mayUpdate {
          verdict := Deny;
        } else if status == Str("publish") {
          verdict := Accept;
        } else if status == Str("unpublish") {
          var mayUnpublish := Can(Unpublish, resource);
          verdict := if mayUnpublish then Accept else Deny;
        } else {
          verdict := Skip;
        }
      case DeleteHandler =>
        var granted := Can(Destroy, resource);
        verdict := if granted then Accept else Deny;
      case MoveHandler(_) =>
        var granted := Can(Update, resource);
        verdict := if granted then Accept else Deny;
    }

    /** The loop every handler runs over the selection: accepted ids are
        collected, and each denied item adds its title and id to the errors. */
    method WalkSelection(h: Handler, ids: seq<Id>) returns (successIds: seq<Id>, errors: seq<Denial>)
      modifies this`checks
      ensures var o := Triage(h, ctx, ids);
        successIds == o.successIds && errors == o.errors && checks == old(checks) + o.checks
    {
      successIds, errors := [], [];
      ghost var before := checks;
      for i := 0 to |ids|
        invariant var o := Triage(h, ctx, ids[..i]);
          successIds == o.successIds && errors == o.errors && checks == before + o.checks
      {
        var id := ids[i];
        TriageSnoc(h, ctx, ids, i, before);
        var verdict, mediaObject := Decide(h, id);
        if verdict == Accept {
          successIds := successIds + [id];
        } else if verdict == Deny {
          errors := errors + [PermissionDenied(mediaObject.title, id)];
        }
      }
      assert ids[..|ids|] == ids;
    }

    /** `access_control_action`. */
    method AccessControlAction(ids: seq<Id>)
      modifies this`flash, this`params, this`bulkCalls, this`checks
      ensures var o := Triage(AccessControlHandler, ctx, ids);
        && flash == Posted(old(flash), Summarise(AccessControlHandler, o.successIds, o.errors))
        && params == NormaliseHidden(old(params))
        && bulkCalls == old(bulkCalls) + [AccessControlBulk(o.successIds, params)]
        && checks == old(checks) + o.checks
    {
      var successIds, errors := WalkSelection(AccessControlHandler, ids);
      PostMessages(AccessControlHandler, successIds, errors);
      if Present(Get(params, HIDDEN)) {
        params := params[HIDDEN := Bool(Get(params, HIDDEN) == Str("true"))];
      }
      bulkCalls := bulkCalls + [AccessControlBulk(successIds, params)];
    }

    /** `status_action`, for the status named by the request's action. */
    method StatusAction(ids: seq<Id>)
      modifies this`flash, this`bulkCalls, this`checks
      ensures var h := StatusHandler(Get(params, "action"));
        var o := Triage(h, ctx, ids);
        && flash == Posted(old(flash), Summarise(h, o.successIds, o.errors))
        && bulkCalls == old(bulkCalls) + [UpdateStatusBulk(o.successIds, userKey, params)]
        && checks == old(checks) + o.checks
    {
      var h := StatusHandler(Get(params, "action"));
      var successIds, errors := WalkSelection(h, ids);
      PostMessages(h, successIds, errors);
      bulkCalls := bulkCalls + [UpdateStatusBulk(successIds, userKey, params)];
    }

    /** `delete_action`. */
    method DeleteAction(ids: seq<Id>)
      modifies this`flash, this`bulkCalls, this`checks
      ensures var o := Triage(DeleteHandler, ctx, ids);
        && flash == Posted(old(flash), Summarise(DeleteHandler, o.successIds, o.errors))
        && bulkCalls == old(bulkCalls) + [DeleteBulk(o.successIds, params)]
        && checks == old(checks) + o.checks
    {
      var successIds, errors := WalkSelection(DeleteHandler, ids);
      PostMessages(DeleteHandler, successIds, errors);
      bulkCalls := bulkCalls + [DeleteBulk(successIds, params)];
    }

    /** `move_action`: a target collection the user may not read stops the
        move before any item is looked at. */
    method MoveAction(ids: seq<Id>)
      modifies this`flash, this`bulkCalls, this`checks
      ensures var collection := ctx.findCollection(Get(params, "target_collection_id"));
        var gate := Check(Read, CollectionResource(collection));
        if !ctx.can(Read, CollectionResource(collection)) then
          && flash == old(flash)[ErrorKey := MoveError(collection.name)]
          && bulkCalls == old(bulkCalls)
          && checks == old(checks) + [gate]
        else
          var o := Triage(MoveHandler(collection.name), ctx, ids);
          && flash == Posted(old(flash), Summarise(MoveHandler(collection.name), o.successIds, o.errors))
          && bulkCalls == old(bulkCalls) + [MoveBulk(o.successIds, params)]
          && checks == old(checks) + [gate] + o.checks
    {
      var collection := ctx.findCollection(Get(params, "target_collection_id"));
      var mayRead := Can(Read, CollectionResource(collection));
      if !mayRead {
        flash := flash[ErrorKey := MoveError(collection.name)];
      } else {
        var h := MoveHandler(collection.name);
        var successIds, errors := WalkSelection(h, ids);
        PostMessages(h, successIds, errors);
        bulkCalls := bulkCalls + [MoveBulk(successIds, params)];
      }
    }
  }

  /** Registering the five bulk actions one by one is `PutAll` of them. */
  lemma PutAllFive(a: seq<Entry>)
    ensures Put(Put(Put(Put(Put(a, ADDED_ENTRIES[0]), ADDED_ENTRIES[1]), ADDED_ENTRIES[2]),
      ADDED_ENTRIES[3]), ADDED_ENTRIES[4]) == PutAll(a, ADDED_ENTRIES)
  {
    var e := ADDED_ENTRIES;
    var b1 := Put(a, e[0]);
    var b2 := Put(b1, e[1]);
    var b3 := Put(b2, e[2]);
    var b4 := Put(b3, e[3]);
    var b5 := Put(b4, e[4]);
    assert e[0..] == e;
    PutAllStep(a, e, 0);
    PutAllStep(b1, e, 1);
    PutAllStep(b2, e, 2);
    PutAllStep(b3, e, 3);
    PutAllStep(b4, e, 4);
    assert e[5..] == [];
  }

  lemma PutAllStep(a: seq<Entry>, es: seq<Entry>, k: nat)
    requires k < |es|
    ensures PutAll(a, es[k..]) == PutAll(Put(a, es[k]), es[k + 1..])
  {
    assert es[k..][0] == es[k];
    assert es[k..][1..] == es[k + 1..];
  }

  /** One more turn of a handler's loop is one more `Step`. */
  lemma TriageSnoc(h: Handler, ctx: Context, ids: seq<Id>, i: nat, before: seq<Check>)
    requires i < |ids|
    ensures Triage(h, ctx, ids[..i + 1]) == Step(h, ctx, Triage(h, ctx, ids[..i]), ids[i])
    ensures before + Triage(h, ctx, ids[..i + 1]).checks ==
      (before + Triage(h, ctx, ids[..i]).checks) + Asked(h, ctx, ids[i])
  {
    assert ids[..i + 1][..i] == ids[..i];
  }
}
