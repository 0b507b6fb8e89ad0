/** The automatic-execution consent provider: two flags, the stored copy of
    the consent under one storage key, and the operations it hands to its
    consumers. Storage holds what the provider writes, a boolean. */
module ConsentProvider {
  import opened Wrappers

  const StorageKey := "automaticExecutionConsent"
  const OutsideProvider := "useAutomaticExecution must be used within an AutomaticExecutionProvider"

  datatype Flags = Flags(consentGiven: bool, showConsentDialog: bool)

  /** The flags together with the stored value (`None` when nothing is stored). */
  datatype Provider = Provider(flags: Flags, stored: Option<bool>)

  const InitialFlags := Flags(false, false)

  /** The stored value mirrors the consent flag. */
  predicate Mirrors(p: Provider) {
    p.stored == Some(p.flags.consentGiven)
  }

  /** Mounting: the load effect adopts a stored value over the initial
      `false`, and the save effect then writes the flag back. */
  function Mount(stored: Option<bool>): (p: Provider)
    ensures Mirrors(p)
    ensures !p.flags.showConsentDialog
    ensures stored.Some? ==> p.flags.consentGiven == stored.value
    ensures stored.None? ==> p.flags == InitialFlags
  {
    var consent := stored.GetOr(InitialFlags.consentGiven);
    Provider(InitialFlags.(consentGiven := consent), Some(consent))
  }

  /** `checkConsentRequired`: consent is required exactly while it has not
      been given; with storage in step, exactly while storage does not hold
      an agreement. While required, asking for consent opens the dialog;
      otherwise asking changes nothing. */
  function CheckConsentRequired(p: Provider): (required: bool)
    ensures required <==> !p.flags.consentGiven
    ensures Mirrors(p) ==> (required <==> p.stored != Some(true))
    ensures required ==> RequestConsent(p).flags.showConsentDialog
    ensures !required ==> RequestConsent(p) == p
  {
    !p.flags.consentGiven
  }

  /** `requestConsent`: opens the dialog only while consent is missing. */
  function RequestConsent(p: Provider): (r: Provider)
    ensures p.flags.consentGiven ==> r == p
    ensures !p.flags.consentGiven ==> r.flags.showConsentDialog && r.flags.consentGiven == p.flags.consentGiven
    ensures r.stored == p.stored
  {
    if !p.flags.consentGiven then p.(flags := p.flags.(showConsentDialog := true)) else p
  }

  /** `setConsentGiven` as exported (`handleSetConsentGiven`), followed by the
      save effect: consenting also closes the dialog, refusing leaves it as
      it was. */
  function SetConsentGiven(p: Provider, consent: bool): (r: Provider)
    ensures r.flags.consentGiven == consent
    ensures consent ==> !r.flags.showConsentDialog
    ensures !consent ==> r.flags.showConsentDialog == p.flags.showConsentDialog
    ensures Mirrors(r)
  {
    var flags := p.flags.(consentGiven := consent);
    var flags' := if consent then flags.(showConsentDialog := false) else flags;
    Provider(flags', Some(consent))
  }

  /** `setShowConsentDialog`: the raw state setter. */
  function SetShowConsentDialog(p: Provider, show: bool): (r: Provider)
    ensures r.flags.showConsentDialog == show
    ensures r.flags.consentGiven == p.flags.consentGiven && r.stored == p.stored
  {
    p.(flags := p.flags.(showConsentDialog := show))
  }

  /** Every operation keeps the stored value in step with the flag, so a
      remount restores the consent flag. */
  lemma {:induction false} OperationsKeepStorageInStep(p: Provider, consent: bool, show: bool)
    requires Mirrors(p)
    ensures Mirrors(RequestConsent(p))
    ensures Mirrors(SetConsentGiven(p, consent))
    ensures Mirrors(SetShowConsentDialog(p, show))
    ensures Mount(p.stored).flags.consentGiven == p.flags.consentGiven
  {
  }

  /** Consent is required at first mount, after a refusal, and never after
      an agreement; a remount requires it unless storage holds an
      agreement. Once given,
      asking for it again does not open the dialog. */
  lemma ConsentRequiredUntilGiven(p: Provider, stored: Option<bool>)
    ensures CheckConsentRequired(Mount(None))
    ensures CheckConsentRequired(Mount(stored)) <==> stored != Some(true)
    ensures CheckConsentRequired(SetConsentGiven(p, false))
    ensures var r := RequestConsent(SetConsentGiven(p, true));
            !r.flags.showConsentDialog && !CheckConsentRequired(r)
  {
  }

  /** `useAutomaticExecution`: the provider's value, or the error thrown
      when no provider is above the caller. */
  function UseAutomaticExecution(context: Option<Provider>): (r: Result<Provider, string>)
    ensures context.None? <==> r == Err(OutsideProvider)
    ensures context.Some? ==> r == Ok(context.value)
  {
    match context
    case None => Err(OutsideProvider)
    case Some(p) => Ok(p)
  }
}
