/** The settings page: a local copy of the configuration edited one field at a
    time, two show/hide switches for the secrets, and a save that hands the
    whole copy to the store. */
module SettingsPage {
  import opened Wrappers
  import opened AutomationTypes
  import JsParseInt
  import UseAutomation

  /** The page's local state. */
  datatype SettingsState = SettingsState(local: AutomationConfig, showToken: bool, showApiKey: bool)

  /** The page as it first renders: a copy of the store's configuration, both
      secrets hidden. */
  function OpenSettings(stored: AutomationConfig): (r: SettingsState)
    ensures r.local == stored && !r.showToken && !r.showApiKey
  {
    SettingsState(stored, false, false)
  }

  /** The fields of the configuration. */
  datatype ConfigField =
    AccessToken | InstagramId | BaseUrl | ApiKey | DelaySeconds | ReplyToComment | SendDM

  /** `a` and `b` agree on every field other than `f`. */
  predicate SameExcept(a: AutomationConfig, b: AutomationConfig, f: ConfigField) {
    && (f != AccessToken ==> a.accessToken == b.accessToken)
    && (f != InstagramId ==> a.instagramId == b.instagramId)
    && (f != BaseUrl ==> a.baseUrl == b.baseUrl)
    && (f != ApiKey ==> a.apiKey == b.apiKey)
    && (f != DelaySeconds ==> a.delaySeconds == b.delaySeconds)
    && (f != ReplyToComment ==> a.replyToComment == b.replyToComment)
    && (f != SendDM ==> a.sendDM == b.sendDM)
  }

  /** What the user can do on the page. */
  datatype SettingsEvent =
    | AccessTokenTyped(text: string)
    | InstagramIdTyped(text: string)
    | BaseUrlTyped(text: string)
    | ApiKeyTyped(text: string)
    | DelayTyped(text: string)
    | ReplyToCommentSwitched(on: bool)
    | SendDMSwitched(on: bool)
    | ShowTokenClicked
    | ShowApiKeyClicked

  /** The configuration field an event edits, if it edits one. */
  function FieldOf(e: SettingsEvent): Option<ConfigField> {
    match e
    case AccessTokenTyped(_) => Some(AccessToken)
    case InstagramIdTyped(_) => Some(InstagramId)
    case BaseUrlTyped(_) => Some(BaseUrl)
    case ApiKeyTyped(_) => Some(ApiKey)
    case DelayTyped(_) => Some(DelaySeconds)
    case ReplyToCommentSwitched(_) => Some(ReplyToComment)
    case SendDMSwitched(_) => Some(SendDM)
    case ShowTokenClicked => None
    case ShowApiKeyClicked => None
  }

  /** `parseInt(text) || 0`: the parsed number, or 0 when the text holds no
      number. No range is imposed here. */
  function DelayFromText(text: string): (d: int)
    ensures JsParseInt.ParseInt(text).None? ==> d == 0
    ensures JsParseInt.ParseInt(text).Some? ==> d == JsParseInt.ParseInt(text).value
  {
    JsParseInt.ParseInt(text).GetOr(0)
  }

  /** The page's handlers. A field event replaces that one field of the local
      copy and keeps the other six and both visibility switches; a show/hide
      click flips its own switch and leaves the local copy alone. */
  function Handle(s: SettingsState, e: SettingsEvent): (r: SettingsState)
    ensures FieldOf(e).Some? ==>
      SameExcept(s.local, r.local, FieldOf(e).value)
      && r.showToken == s.showToken && r.showApiKey == s.showApiKey
    ensures FieldOf(e).None? ==> r.local == s.local
    ensures e.AccessTokenTyped? ==> r.local.accessToken == e.text
    ensures e.InstagramIdTyped? ==> r.local.instagramId == e.text
    ensures e.BaseUrlTyped? ==> r.local.baseUrl == e.text
    ensures e.ApiKeyTyped? ==> r.local.apiKey == e.text
    ensures e.DelayTyped? ==> r.local.delaySeconds == DelayFromText(e.text)
    ensures e.ReplyToCommentSwitched? ==> r.local.replyToComment == e.on
    ensures e.SendDMSwitched? ==> r.local.sendDM == e.on
    ensures e == ShowTokenClicked ==> r.showToken == !s.showToken && r.showApiKey == s.showApiKey
    ensures e == ShowApiKeyClicked ==> r.showApiKey == !s.showApiKey && r.showToken == s.showToken
  {
    var c := s.local;
    match e
    case AccessTokenTyped(t) => s.(local := c.(accessToken := t))
    case InstagramIdTyped(t) => s.(local := c.(instagramId := t))
    case BaseUrlTyped(t) => s.(local := c.(baseUrl := t))
    case ApiKeyTyped(t) => s.(local := c.(apiKey := t))
    case DelayTyped(t) => s.(local := c.(delaySeconds := DelayFromText(t)))
    case ReplyToCommentSwitched(b) => s.(local := c.(replyToComment := b))
    case SendDMSwitched(b) => s.(local := c.(sendDM := b))
    case ShowTokenClicked => s.(showToken := !s.showToken)
    case ShowApiKeyClicked => s.(showApiKey := !s.showApiKey)
  }

  /** `handleSave`: `updateConfig(localConfig)` with every field present, so
      the stored configuration becomes the local copy, whatever it was. */
  function HandleSave(s: SettingsState, stored: AutomationConfig): (r: AutomationConfig)
    ensures r == s.local
  {
    UseAutomation.UpdateConfig(stored, WholeConfig(s.local))
  }

  // ---------------------------------------------------------------------------
  // Properties of the page

  /** The delay field keeps whatever integer was typed, even outside the 0 to 60
      range the input element advertises: typing the decimal form of `n`
      stores `n`. */
  lemma DelayNotClamped(s: SettingsState, n: int)
    ensures Handle(s, DelayTyped(JsParseInt.IntToDecimal(n))).local.delaySeconds == n
  {
    JsParseInt.ParseIntOfDecimal(n, "");
    assert JsParseInt.IntToDecimal(n) + "" == JsParseInt.IntToDecimal(n);
  }

  /** Text without a decimal digit is not a number, so it stores 0: "abc",
      "e" and "-" included. */
  lemma DelayOfNonNumber(s: SettingsState, text: string)
    requires forall i :: 0 <= i < |text| ==> !JsParseInt.IsDigitOf(text[i], 10)
    ensures Handle(s, DelayTyped(text)).local.delaySeconds == 0
  {
    assert JsParseInt.NoDecimalDigit(text);
  }

  /** Clicking a show/hide switch twice restores the page exactly. */
  lemma VisibilityTwice(s: SettingsState)
    ensures Handle(Handle(s, ShowTokenClicked), ShowTokenClicked) == s
    ensures Handle(Handle(s, ShowApiKeyClicked), ShowApiKeyClicked) == s
  {
  }

  /** Saving without an edit writes back the copy taken when the page opened,
      so it also overwrites whatever the store held at save time. */
  lemma SaveWithoutEdits(atOpen: AutomationConfig, atSave: AutomationConfig)
    ensures HandleSave(OpenSettings(atOpen), atSave) == atOpen
  {
  }
}
