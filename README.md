# Bulk actions on bookmarked media objects, and the video creator check

This project models the core of the Avalon media system's bookmarks
controller and one validation helper of its video model.

The controller does three things:

- Its class body edits the document-action catalogue it inherits from the
  catalog controller. Email and citation are removed. Five bulk actions are
  registered, in this order: `update_access_control`, `move`, `publish`,
  `unpublish`, `delete`.
- `verify_permissions` copies the catalogue into the list of offered actions.
  It then removes every action that some selected media object is refused.
- Four bulk handlers walk the selected ids in order. Each handler asks the
  current ability one question per item, plus a question about `unpublish`
  when it unpublishes an item that may be updated. It collects the accepted
  ids, and records one "title (id) permission denied" line per refused item.
  It posts a success notice to the flash when something succeeded and an alert
  when something was denied, then calls the bulk mutation with the accepted
  ids. `move_action` first checks that the target collection may
  be read. If it may not, the handler posts only an error and moves nothing.

The video model's `is_valid_metadata_field?` decides whether a descriptive
metadata field is filled in. `validate` uses it to require a creator.

How the model is built:

- Lookups and the ability are fixed for one request. They are the parameters
  of a `Context`: `findMediaObject`, `findCollection` and a `can` oracle.
- Each bulk handler is a `Handler` value. `Judge` gives the handler's verdict
  on one item: accept, deny, or skip. Skipping happens only for a status other
  than publish or unpublish. `Asked` gives the ability questions asked about
  the item, in order. `Triage` folds `Step` over the selection.
- The controller is a class. Its fields are the catalogue, the offered
  actions, the request parameters, the flash and the log of bulk calls. A
  ghost log of the ability questions is kept too.
- Each handler is a method, proved against `Triage`. `Triage` in turn is
  proved equal to an independent filter-based description, `WithVerdict`.
  From that come:
  - the partition of the selection into successes and denials, in order;
  - the per-capability rules of each handler.

One consequence shows up in the model: the filter and the handler disagree
on unpublish. The filter gates unpublish on the `unpublish` capability alone.
`status_action` also asks for `update`. So an item that may be unpublished but
not updated is offered unpublish, and is then denied it
(`PermissionFilter.UnpublishOfferedYetDenied`).

Hashes are modelled as sequences of entries with distinct names:

- `Without` is `Hash#delete`.
- `Put` is `Hash#[]=`. An existing key keeps its position; a new key goes
  last.

Request values are `Nil`, strings and booleans. `Present` follows Ruby's
`present?` on them.

## Model

| member | source | states |
|---|---|---|
| ActionRegistry.Without | app/controllers/bookmarks_controller.rb:18-19 | `Hash#delete` never lengthens the hash; `WithoutEntries` and `WithoutNames` give its contents |
| ActionRegistry.WithoutEntries | app/controllers/bookmarks_controller.rb:18-19 | deleting a key keeps exactly the pairs under other keys, options included |
| ActionRegistry.Put | app/controllers/bookmarks_controller.rb:21-25 | `Hash#[]=` grows the hash by at most one pair; `PutEntries` and `PutNames` give its contents |
| ActionRegistry.PutEntries | app/controllers/bookmarks_controller.rb:21-25 | the stored pair is present; every pair under another key stays; nothing else is added |
| ActionRegistry.PutAll | app/controllers/bookmarks_controller.rb:21-25 | storing several pairs grows the hash by at most their number |
| ActionRegistry.PutAllEntries | app/controllers/bookmarks_controller.rb:21-25 | storing several pairs adds nothing but them |
| ActionRegistry.Configured | app/controllers/bookmarks_controller.rb:18-25 | the class body's catalogue is at most the inherited one plus the five; its contents are given by `ConfiguredEntries`, `ConfiguredHoldsFive`, `ConfiguredEntriesExactly`, `ConfiguredNames` and `ConfiguredLayout` |
| ActionRegistry.ConfiguredEntries | app/controllers/bookmarks_controller.rb:18-25 | every configured entry is an inherited one other than email and citation, with its inherited options, or one of the five as registered |
| ActionRegistry.PutAllKeeps | app/controllers/bookmarks_controller.rb:21-25 | storing pairs under other keys keeps an existing pair |
| ActionRegistry.PutAllHoldsAll | app/controllers/bookmarks_controller.rb:21-25 | after storing pairs under distinct keys, every one of them is in the hash |
| ActionRegistry.ConfiguredHoldsFive | app/controllers/bookmarks_controller.rb:21-25 | each of the five bulk actions is in the configured catalogue with its registered callback and tool partial, whatever was inherited under its name |
| ActionRegistry.ConfiguredEntriesExactly | app/controllers/bookmarks_controller.rb:18-25 | on an inherited hash, an entry is configured exactly when it is one of the five as registered, or an inherited entry under a name other than email, citation and the five |
| ActionRegistry.ConfiguredNames | app/controllers/bookmarks_controller.rb:18-25 | the configured catalogue never holds email or citation; it always holds the five bulk actions; any other name is in it exactly when it was inherited |
| ActionRegistry.ConfiguredLayout | app/controllers/bookmarks_controller.rb:18-25 | when none of the five was inherited, the catalogue is the surviving inherited actions in their order, followed by the five in registration order, with their callbacks and tool partials |
| ActionRegistry.ConfiguredDistinct | app/controllers/bookmarks_controller.rb:18-25 | the configured catalogue is still a hash: no name appears twice |
| ActionRegistry.WithoutNames | app/controllers/bookmarks_controller.rb:18-19 | deleting a key removes exactly that name |
| ActionRegistry.PutNames | app/controllers/bookmarks_controller.rb:21-25 | adding an action puts its name in the catalogue and keeps every other name |
| ActionRegistry.PutKeepsDistinct | app/controllers/bookmarks_controller.rb:21-25 | adding an action to a hash leaves a hash |
| Bookmarks.BookmarksController.constructor | app/controllers/bookmarks_controller.rb:15-25 | a fresh controller holds the configured catalogue, offers nothing yet, has an empty flash and has made no bulk call |
| Bookmarks.BookmarksController.DeleteDocumentAction | app/controllers/bookmarks_controller.rb:18-19 | the catalogue becomes the old one without that name, and stays a hash |
| Bookmarks.BookmarksController.AddDocumentAction | app/controllers/bookmarks_controller.rb:21-25 | the catalogue becomes the old one with the entry put in, and stays a hash |
| Bookmarks.BookmarksController.ConfigureDocumentActions | app/controllers/bookmarks_controller.rb:18-25 | the seven statements of the class body together turn the catalogue into `Configured` of the old one |
| PermissionFilter.Offered | app/controllers/bookmarks_controller.rb:32-39 | the filter never adds an action: the offered list is at most the catalogue; `OfferedEntries` and `OfferedNames` give its contents |
| PermissionFilter.OfferedEntries | app/controllers/bookmarks_controller.rb:32-39 | an entry is offered, with its catalogued options, exactly when it is catalogued and no selected item is refused its gating capability |
| Authorization.CanOn | app/controllers/bookmarks_controller.rb:31-39 | the ability question about the media object found for an id; a definition, whose uses carry the contracts |
| Authorization.AnyCannot | app/controllers/bookmarks_controller.rb:33-39 | `mos.any? { cannot? }` is false on an empty selection; the lemmas over it (`OfferedNames`, `ConfiguredOffers`) read it as "some selected item is refused" |
| Bookmarks.BookmarksController.VerifyPermissions | app/controllers/bookmarks_controller.rb:29-40 | the offered actions are `Offered` of the catalogue; the catalogue itself is unchanged; both stay hashes |
| PermissionFilter.OfferedNames | app/controllers/bookmarks_controller.rb:32-39 | an action is offered exactly when the catalogue has it and no selected item is refused that action's gating capability (destroy, unpublish, update for publish and move, update_access_control) |
| PermissionFilter.OfferedIsSubsequence | app/controllers/bookmarks_controller.rb:32-39 | the offered actions are the catalogue with some entries left out, keeping their options and their order |
| PermissionFilter.EmptySelectionOffersAll | app/controllers/bookmarks_controller.rb:33-39 | with nothing selected, every catalogued action is offered |
| PermissionFilter.ConfiguredOffers | app/controllers/bookmarks_controller.rb:18-39 | on the configured catalogue: publish and move are offered together, exactly when every item may be updated; delete, unpublish and update_access_control are each offered exactly when every item has that capability; email and citation never are |
| PermissionFilter.OfferedActionsAcceptAll | app/controllers/bookmarks_controller.rb:29-146 | an offered access-control, delete, move or publish action accepts every selected item, in order; unpublish does so when publish is offered too |
| PermissionFilter.UnpublishOfferedYetDenied | app/controllers/bookmarks_controller.rb:29-109 | for any inherited catalogue and any selection whose items may all be unpublished, unpublish is offered, and every selected item that may not be updated is denied by `status_action` and not accepted |
| PermissionFilter.UnpublishOfferedYetDeniedWitness | app/controllers/bookmarks_controller.rb:29-109 | such a selection exists: one item that may be unpublished and nothing else is offered unpublish and denied it |
| Bookmarks.BookmarksController.Can | app/controllers/bookmarks_controller.rb:72 | an ability question returns the oracle's answer, and is logged |
| Bookmarks.BookmarksController.Decide | app/controllers/bookmarks_controller.rb:70-140 | the questions asked about one item are `Asked`, in order, and the item's verdict is `Judge` |
| Bookmarks.BookmarksController.WalkSelection | app/controllers/bookmarks_controller.rb:67-141 | the loop over the selected ids yields `Triage`'s success ids and denials, and logs exactly `Triage`'s questions |
| Bookmarks.BookmarksController.PostMessages | app/controllers/bookmarks_controller.rb:78-143 | the flash becomes `Posted(old flash, Summarise(...))` |
| Bookmarks.BookmarksController.AccessControlAction | app/controllers/bookmarks_controller.rb:67-83 | flash, the normalised params and the bulk call are those of `Triage(AccessControlHandler)` |
| Bookmarks.BookmarksController.StatusAction | app/controllers/bookmarks_controller.rb:85-109 | flash and the bulk call (with the user key) are those of `Triage` for the status named by `params['action']` |
| Bookmarks.BookmarksController.DeleteAction | app/controllers/bookmarks_controller.rb:111-125 | flash and the bulk call are those of `Triage(DeleteHandler)` |
| Bookmarks.BookmarksController.MoveAction | app/controllers/bookmarks_controller.rb:127-146 | an unreadable target collection sets only the error key, makes no bulk call and asks nothing about the items; otherwise the flash and the bulk call are those of `Triage(MoveHandler)` after the read check |
| RubyValues.Present | app/controllers/bookmarks_controller.rb:81 | nil, false and the empty string are blank; a boolean is present exactly when true; a string is blank exactly when every character is white space |
| Bookmarks.NormaliseHidden | app/controllers/bookmarks_controller.rb:81 | same keys; every other parameter is unchanged; a present `hidden` becomes a boolean, true exactly when it was the string "true"; a blank or missing one is left as it was |
| Authorization.DenialOf | app/controllers/bookmarks_controller.rb:73 | a denial line carries the found media object's title and the selected id |
| Authorization.Judge | app/controllers/bookmarks_controller.rb:72-140 | an item is denied exactly when it lacks a capability its handler needs (`Needs`: update_access_control; update; update and unpublish for unpublish; destroy); accepted exactly when it has them all and the handler is decisive; skipped exactly for a status other than publish and unpublish on an item that may be updated |
| Authorization.Asked | app/controllers/bookmarks_controller.rb:72-140 | one or two questions, all about the item's media object and all for capabilities the handler needs; the first is the handler's own capability (update_access_control, destroy, or update for status and move); a second, always `unpublish`, comes exactly when unpublishing an item that may be updated |
| Authorization.Step | app/controllers/bookmarks_controller.rb:70-140 | one turn of a handler's loop keeps the earlier successes and errors as prefixes, places the item on at most one side (on exactly one unless skipped), and appends the item's questions |
| Authorization.Triage | app/controllers/bookmarks_controller.rb:68-77 | successes and errors together number at most the selection, and exactly the selection for a decisive handler (any but a status other than publish and unpublish) |
| Authorization.TriageCharacterised | app/controllers/bookmarks_controller.rb:67-141 | the success ids are the accepted ids in selection order; the errors are the denied items' title and id in selection order; the questions are each item's in turn |
| Authorization.Partition | app/controllers/bookmarks_controller.rb:67-141 | for access control, delete, move and publish/unpublish, the successes and the denied ids interleave to the selection: every occurrence lands in exactly one, in order |
| Authorization.Placement | app/controllers/bookmarks_controller.rb:67-141 | an id occurs in the successes (or denials) as often as it was selected when its verdict is accept (or deny), and otherwise not at all |
| Authorization.AccessControlRule | app/controllers/bookmarks_controller.rb:70-77 | an item is accepted exactly when it may have its access control updated, and otherwise gets one denial per occurrence |
| Authorization.DeleteRule | app/controllers/bookmarks_controller.rb:114-121 | an item is accepted exactly when it may be destroyed, and otherwise gets one denial per occurrence |
| Authorization.MoveRule | app/controllers/bookmarks_controller.rb:134-141 | an item is accepted exactly when it may be updated, and otherwise gets one denial per occurrence |
| Authorization.PublishRule | app/controllers/bookmarks_controller.rb:89-96 | publishing accepts an item exactly when it may be updated, and otherwise denies it once per occurrence |
| Authorization.UnpublishRule | app/controllers/bookmarks_controller.rb:89-103 | unpublishing accepts an item exactly when it may be both updated and unpublished; one lacking either gets exactly one denial per occurrence |
| Authorization.OtherStatusRule | app/controllers/bookmarks_controller.rb:89-105 | for any other status nothing is accepted, and only the items that may not be updated are denied |
| Authorization.AllAccepted | app/controllers/bookmarks_controller.rb:68-77 | when every item is accepted, the success ids are the selection and there are no errors |
| Reporting.Summarise | app/controllers/bookmarks_controller.rb:78-143 | a success notice exactly when something succeeded, counting the successes; an alert exactly when something was denied, counting and listing the denials |
| Reporting.Posted | app/controllers/bookmarks_controller.rb:78-79 | the notices present replace their keys; an absent notice leaves its key as it was; every other flash entry is kept; no other key appears |
| Reporting.EmptySelectionReportsNothing | app/controllers/bookmarks_controller.rb:78-79 | an empty selection leaves the flash unchanged |
| VideoModel.IsValidMetadataField | app/models/video.rb:34-48 | a valid field is set; a valid required field has at least one value |
| VideoModel.NilIsInvalid | app/models/video.rb:36-46 | a nil field is invalid whether or not it is required |
| VideoModel.OptionalAcceptsAnySetField | app/models/video.rb:40-42 | a set field that is not required is valid, even when it holds no values |
| VideoModel.RequiredRule | app/models/video.rb:37-39 | a required field is valid exactly when it is set, non-empty, and its first value is not the empty string |
| VideoModel.RequiredImpliesOptional | app/models/video.rb:34-48 | a field valid as required is also valid as optional |
| VideoModel.OnlyFirstValueMatters | app/models/video.rb:38-39 | values after the first never change the verdict |
| VideoModel.FirstValueExamples | app/models/video.rb:38-39 | `["", "x"]` fails the required check and `["x", ""]` passes it |
| VideoModel.CreatorErrors | app/models/video.rb:13-15 | at most one error, the creator's "This field is required", present exactly when the creator field is invalid as required |
| VideoModel.Video.Validate | app/models/video.rb:12-15 | the errors are the old errors followed by `CreatorErrors` |
| VideoModel.ValidateOnlyAppends | app/models/video.rb:13-15 | validation keeps the earlier errors as a prefix, and adds one exactly when the creator field is invalid |

## Left out

- `index`, `action_documents` and the Solr queries: the selection reaches every operation as a list of ids.
- How Blacklight dispatches a document action to its callback is not part of this model; each handler is a method called with the selected ids.
- `add_document_action` is Blacklight's method, not defined in the controller's file. The model takes it to be `document_actions[name] = options` (`Put`).
- `MediaObject.find` and `Admin::Collection.find` raise on an unknown id, which aborts the handler before it writes the flash or makes the bulk call. That path is not modelled: both lookups are total functions of the `Context`. An unknown id is never a denial, neither in the code nor in the model.
- Authorization.AnyCannot: its contract states only the empty-selection case; the rest of its meaning is its body, kept free of further contracts so the proofs that use it stay small.
- The ability rules behind `can?` and `cannot?` are an oracle of the `Context`; `cannot?` is its negation.
- The questions `verify_permissions` asks are not added to the `checks` log; it is stated with `AnyCannot` over the same oracle.
- The bodies of `access_control_bulk`, `update_status_bulk`, `delete_bulk` and `move_bulk`: each call is recorded with its arguments.
- Translation and HTML: notices are kept as records carrying the handler, the counts and the denials, not as rendered text.
- `status` is carried in the handler, as is the collection name in `move_action`'s success notice.
- `current_user.user_key` is a constant of the controller; a request without a signed-in user is not modelled.
- Bookmarks.BookmarksController.constructor: `document_actions` is a class-level attribute shared with the parent controller, while the model holds it per controller. Editing it in place when it is still the parent's object, which would also change the parent's catalogue, is not modelled.
- `present?` on strings tests only ASCII white space, not every Unicode space character.
- Request parameters are nil, strings or booleans; nested parameters and arrays are not modelled.
- VideoModel.Video.Validate: the `created_on` and `title` checks, because they call `is_valid_metadata_field` without the question mark. That method is not defined in `video.rb`, and its behaviour depends on code outside this model.
- The `has_metadata` declarations, the mixins, `after_create` and `save` are framework wiring.
- `creator` in `validate` is not defined in `video.rb` either. The model takes it to be the key that `descMetadata` is read with (the `creator` field of `VideoModel.Video`).
- The metadata datastream is a map from field name to a list of strings; a missing key is nil. Fields holding other kinds of value are not modelled.
