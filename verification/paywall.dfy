/** The sidebar gate that decides between demo mode and live mode: live mode
    needs the paid mode, a configured access code that the user typed, and a
    non-blank API key. Secrets and widget values are passed in. */
module Paywall {
  import opened Base
  import opened PyStr

  /** The two options of the mode radio: "Demo (free)" and "API (paid)". */
  datatype Mode = DemoFree | ApiPaid

  /** A value of the `paywall` secrets section: a list (its items already
      rendered with `str()`), a string, or anything else. */
  datatype Setting = ListSetting(items: seq<string>) | TextSetting(text: string) | OtherSetting

  /** The `paywall` secrets section; only `codes` and `code` are read. */
  datatype PaywallConfig = PaywallConfig(codes: Option<Setting>, code: Option<Setting>)

  /** `valid_codes`: a `codes` list wins, each item stripped; otherwise a `code`
      string, stripped; otherwise (also when the section is missing) none. */
  function ValidCodes(paywall: Option<PaywallConfig>): (codes: seq<string>)
    ensures forall i :: 0 <= i < |codes| ==> Stripped(codes[i])
    ensures paywall.Some? && paywall.value.codes.Some? && paywall.value.codes.value.ListSetting? ==>
      var items := paywall.value.codes.value.items;
      |codes| == |items| && forall i :: 0 <= i < |items| ==> codes[i] == Strip(items[i])
    ensures paywall.Some? && !(paywall.value.codes.Some? && paywall.value.codes.value.ListSetting?) ==>
      var code := paywall.value.code;
      codes == (if code.Some? && code.value.TextSetting? then [Strip(code.value.text)] else [])
    ensures paywall.None? ==> codes == []
  {
    match paywall
    case None => []
    case Some(cfg) =>
      if cfg.codes.Some? && cfg.codes.value.ListSetting? then
        var items := cfg.codes.value.items;
        seq(|items|, i requires 0 <= i < |items| => Strip(items[i]))
      else if cfg.code.Some? && cfg.code.value.TextSetting? then
        [Strip(cfg.code.value.text)]
      else []
  }

  /** `demo_mode` as the sidebar leaves it. Live mode holds exactly when the
      paid mode is chosen, some code is configured, the stripped access code is
      one of them, and the API key has text. */
  function DemoMode(mode: Mode, paywall: Option<PaywallConfig>, accessCode: string, apiKey: Option<string>): (demo: bool)
    ensures !demo <==>
      && mode == ApiPaid
      && ValidCodes(paywall) != []
      && Strip(accessCode) in ValidCodes(paywall)
      && apiKey.Some? && !AllSpace(apiKey.value)
  {
    match mode
    case DemoFree => true
    case ApiPaid =>
      var validCodes := ValidCodes(paywall);
      var codeOk := if validCodes != [] then Strip(accessCode) in validCodes else false;
      var apiOk := apiKey.Some? && |Strip(apiKey.value)| > 0;
      !codeOk || !apiOk
  }

  /** Whitespace typed around the access code does not change the mode. */
  lemma AccessCodePadding(mode: Mode, paywall: Option<PaywallConfig>, p: string, accessCode: string, q: string, apiKey: Option<string>)
    requires AllSpace(p) && AllSpace(q)
    ensures DemoMode(mode, paywall, p + accessCode + q, apiKey) == DemoMode(mode, paywall, accessCode, apiKey)
  {
    StripPadding(p, accessCode, q);
  }

  /** Typing any item of a configured `codes` list, as configured, unlocks live
      mode in the paid mode when the API key has text. */
  lemma ConfiguredCodeUnlocks(items: seq<string>, other: Option<Setting>, k: nat, apiKey: string)
    requires k < |items| && !AllSpace(apiKey)
    ensures !DemoMode(ApiPaid, Some(PaywallConfig(Some(ListSetting(items)), other)), items[k], Some(apiKey))
  {
    var codes := ValidCodes(Some(PaywallConfig(Some(ListSetting(items)), other)));
    assert codes[k] == Strip(items[k]);
  }

  /** A configured code that is blank once stripped lets an empty access code
      through: `code_ok` compares stripped strings and never rejects empty ones. */
  lemma BlankCodeAccepted(paywall: Option<PaywallConfig>, apiKey: string)
    requires [] in ValidCodes(paywall) && !AllSpace(apiKey)
    ensures !DemoMode(ApiPaid, paywall, "", Some(apiKey))
  {
    assert Strip("") == [];
  }

  /** Without a configured code, or without an API key, the page stays in demo
      mode whatever is typed. */
  lemma LockedWithoutCodesOrKey(mode: Mode, paywall: Option<PaywallConfig>, accessCode: string, apiKey: Option<string>)
    requires ValidCodes(paywall) == [] || apiKey.None? || AllSpace(apiKey.value)
    ensures DemoMode(mode, paywall, accessCode, apiKey)
  {
  }
}
