/** The consent dialog: two checkboxes that reset whenever it opens, an agree
    button enabled only when both are ticked, and a disagree button that is
    always enabled. Its callbacks are returned as events; `Deliver` runs
    them through the provider's setters. */
module ConsentDialog {
  import opened Wrappers
  import ConsentProvider

  datatype Checks = Checks(understood: bool, agreed: bool)

  /** A checkbox's reported state: checked, unchecked, or indeterminate. */
  datatype CheckedState = Checked(value: bool) | Indeterminate

  /** `checked === true`. */
  function Ticked(c: CheckedState): bool {
    c.Checked? && c.value
  }

  function OnUnderstoodChange(s: Checks, c: CheckedState): (r: Checks)
    ensures r.understood <==> c == Checked(true)
    ensures r.agreed == s.agreed
  {
    s.(understood := Ticked(c))
  }

  function OnAgreedChange(s: Checks, c: CheckedState): (r: Checks)
    ensures r.agreed <==> c == Checked(true)
    ensures r.understood == s.understood
  {
    s.(agreed := Ticked(c))
  }

  /** The effect on `open`: opening clears both boxes; closing keeps them. */
  function OnOpenChanged(s: Checks, open: bool): (r: Checks)
    ensures open ==> !r.understood && !r.agreed
    ensures !open ==> r == s
  {
    if open then Checks(false, false) else s
  }

  /** The agree button: `disabled={!understood || !agreed}`, so it is
      enabled exactly when both boxes are ticked. */
  function AgreeEnabled(s: Checks): (enabled: bool)
    ensures enabled <==> s.understood && s.agreed
  {
    !(!s.understood || !s.agreed)
  }

  /** A callback invocation. */
  datatype Emit = Consent(consented: bool) | OpenChange(open: bool)

  /** Clicking agree: nothing when disabled, else `onConsent(true)` then
      `onOpenChange(false)`. */
  function ClickAgree(s: Checks): (e: seq<Emit>)
    ensures e != [] <==> AgreeEnabled(s)
    ensures e != [] ==> e == [Consent(true), OpenChange(false)]
  {
    if AgreeEnabled(s) then [Consent(true), OpenChange(false)] else []
  }

  /** Clicking disagree, always possible: `onConsent(false)` then
      `onOpenChange(false)`, whatever the boxes say. */
  function ClickDisagree(s: Checks): (e: seq<Emit>)
    ensures |e| == 2 && e[0] == Consent(false) && e[1] == OpenChange(false)
  {
    [Consent(false), OpenChange(false)]
  }

  /** The dialog wired to the provider: `onConsent` is `setConsentGiven` and
      `onOpenChange` is `setShowConsentDialog`. */
  function Deliver(p: ConsentProvider.Provider, e: seq<Emit>): ConsentProvider.Provider
    decreases |e|
  {
    if |e| == 0 then p
    else
      var p' := match e[0]
        case Consent(c) => ConsentProvider.SetConsentGiven(p, c)
        case OpenChange(o) => ConsentProvider.SetShowConsentDialog(p, o);
      Deliver(p', e[1..])
  }

  /** Freshly opened, the dialog cannot be agreed to until both boxes are
      ticked, and an indeterminate box does not count as ticked. */
  lemma FreshDialogNeedsBothBoxes(s: Checks, a: CheckedState, b: CheckedState)
    ensures !Ticked(Indeterminate) && !Ticked(Checked(false)) && Ticked(Checked(true))
    ensures !AgreeEnabled(OnOpenChanged(s, true))
    ensures AgreeEnabled(OnAgreedChange(OnUnderstoodChange(OnOpenChanged(s, true), a), b))
            <==> a == Checked(true) && b == Checked(true)
  {
  }

  /** Delivered to the provider, agreeing records
      consent, stores it and closes the dialog; disagreeing records refusal,
      stores it and closes the dialog. */
  lemma {:induction false} ClicksReachTheProvider(p: ConsentProvider.Provider, s: Checks)
    ensures AgreeEnabled(s) ==>
              var r := Deliver(p, ClickAgree(s));
              r.flags == ConsentProvider.Flags(true, false) && r.stored == Some(true)
    ensures !AgreeEnabled(s) ==> Deliver(p, ClickAgree(s)) == p
    ensures var r := Deliver(p, ClickDisagree(s));
            r.flags == ConsentProvider.Flags(false, false) && r.stored == Some(false)
  {
    var agree := [Consent(true), OpenChange(false)];
    assert agree[1..] == [OpenChange(false)];
    assert ClickDisagree(s)[1..] == [OpenChange(false)];
  }
}
