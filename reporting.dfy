/** The notices a bulk handler leaves in the flash, kept as structured
    records: the translation key's arguments and the list of denials, not the
    rendered text. */
module Reporting {
  import opened RubyValues
  import opened Authorization

  /** A flash notice. `SuccessNotice` carries the `count:` of the success
      message, `AlertNotice` the `count:` of the alert and the denials joined
      after it; both name the handler, whose status or collection name the
      message is given. `MoveError` is the collection-level error of a move. */
  datatype Notice =
    | SuccessNotice(handler: Handler, count: nat)
    | AlertNotice(handler: Handler, count: nat, errors: seq<Denial>)
    | MoveError(collectionName: string)

  datatype FlashKey = SuccessKey | AlertKey | ErrorKey

  type Flash = map<FlashKey, Notice>

  /** What one handler reports: at most one success notice, at most one alert. */
  datatype Messages = Messages(success: Option<Notice>, alert: Option<Notice>)

  /** The notices for an outcome: a success notice only when something
      succeeded, counting the successes; an alert only when something was
      denied, counting the denials and listing them in selection order. */
  function Summarise(h: Handler, successIds: seq<Id>, errors: seq<Denial>): (m: Messages)
    ensures m.success.Some? <==> |successIds| > 0
    ensures m.success.Some? ==> m.success.value == SuccessNotice(h, |successIds|)
    ensures m.alert.Some? <==> |errors| > 0
    ensures m.alert.Some? ==> m.alert.value == AlertNotice(h, |errors|, errors)
  {
    Messages(
      if |successIds| > 0 then Some(SuccessNotice(h, |successIds|)) else None,
      if |errors| > 0 then Some(AlertNotice(h, |errors|, errors)) else None)
  }

  /** The flash after writing the notices: each one present replaces that
      key's entry, and every other entry stays as it was. */
  function Posted(flash: Flash, m: Messages): (f: Flash)
    ensures SuccessKey in f <==> SuccessKey in flash || m.success.Some?
    ensures AlertKey in f <==> AlertKey in flash || m.alert.Some?
    ensures m.success.Some? ==> f[SuccessKey] == m.success.value
    ensures m.alert.Some? ==> f[AlertKey] == m.alert.value
    ensures m.success.None? && SuccessKey in flash ==> f[SuccessKey] == flash[SuccessKey]
    ensures m.alert.None? && AlertKey in flash ==> f[AlertKey] == flash[AlertKey]
    ensures forall k :: k in flash && k != SuccessKey && k != AlertKey ==> k in f && f[k] == flash[k]
    ensures forall k :: k in f ==> k in flash || k == SuccessKey || k == AlertKey
  {
    var f := if m.success.Some? then flash[SuccessKey := m.success.value] else flash;
    if m.alert.Some? then f[AlertKey := m.alert.value] else f
  }

  /** An empty selection leaves the flash as it was. */
  lemma EmptySelectionReportsNothing(h: Handler, ctx: Context, flash: Flash)
    ensures var o := Triage(h, ctx, []);
      Posted(flash, Summarise(h, o.successIds, o.errors)) == flash
  {
  }
}
