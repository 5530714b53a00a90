/** The keyword manager page: a dialog whose form creates a keyword or edits
    the one it was opened for, and the delete confirmation. */
module KeywordsPage {
  import opened Wrappers
  import opened AutomationTypes
  import Text
  import UseAutomation

  /** The five fields of the dialog's form. */
  datatype FormData = FormData(word: string, link: string, message: string, buttonText: string, enabled: bool)

  /** What `resetForm` puts in the form: empty texts, enabled. */
  const EmptyForm := FormData("", "", "", "", true)

  /** The page's local state: whether the dialog is open, the keyword being
      edited (none when creating) and the form. */
  datatype FormState = FormState(dialogOpen: bool, editing: Option<Keyword>, form: FormData)

  const InitialState := FormState(false, None, EmptyForm)

  /** Why a submit was refused. */
  datatype SubmitError = MissingWord | MissingLink

  /** The store call a submit makes. */
  datatype StoreCall = CallAdd(draft: KeywordDraft) | CallUpdate(id: string, patch: KeywordPatch)

  datatype SubmitOutcome = Rejected(error: SubmitError) | Dispatched(call: StoreCall)

  datatype SubmitResult = SubmitResult(outcome: SubmitOutcome, state: FormState)

  /** The form copied from a keyword's five editable fields. */
  function FormOf(k: Keyword): FormData {
    FormData(k.word, k.link, k.message, k.buttonText, k.enabled)
  }

  /** The form as an `addKeyword` argument. */
  function DraftOf(f: FormData): KeywordDraft {
    KeywordDraft(f.word, f.enabled, f.link, f.message, f.buttonText)
  }

  /** The form as an `updateKeyword` argument: the five fields, nothing else. */
  function PatchOf(f: FormData): KeywordPatch {
    KeywordPatch(None, Some(f.word), Some(f.enabled), Some(f.link), Some(f.message),
                 Some(f.buttonText), None, None)
  }

  /** `resetForm`: empty form, nothing being edited; the dialog is left as is. */
  function ResetForm(s: FormState): (r: FormState)
    ensures r.form == EmptyForm && r.editing == None && r.dialogOpen == s.dialogOpen
  {
    s.(form := EmptyForm, editing := None)
  }

  /** `handleOpenDialog(keyword?)`: with a keyword, edit it with its fields in
      the form; without one, a reset. Either way the dialog opens. */
  function OpenDialog(s: FormState, keyword: Option<Keyword>): (r: FormState)
    ensures r.dialogOpen
    ensures keyword.Some? ==> r.editing == keyword && r.form == FormOf(keyword.value)
    ensures keyword.None? ==> r == ResetForm(s).(dialogOpen := true)
  {
    match keyword
    case Some(k) => FormState(true, Some(k), FormOf(k))
    case None => ResetForm(s).(dialogOpen := true)
  }

  /** The dialog's `onOpenChange` and its cancel button: only the open flag
      changes; the form and the edited keyword stay. */
  function SetDialogOpen(s: FormState, open: bool): (r: FormState)
    ensures r.dialogOpen == open && r.form == s.form && r.editing == s.editing
  {
    s.(dialogOpen := open)
  }

  /** One edit of one form field. */
  datatype FieldEdit =
    | WordTyped(word: string)
    | LinkTyped(link: string)
    | MessageTyped(message: string)
    | ButtonTextTyped(buttonText: string)
    | EnabledSwitched(enabled: bool)

  /** `setFormData({ ...formData, field: value })`: one field changes. */
  function EditForm(s: FormState, e: FieldEdit): (r: FormState)
    ensures r.dialogOpen == s.dialogOpen && r.editing == s.editing
    ensures e.WordTyped? ==> r.form == s.form.(word := e.word)
    ensures e.LinkTyped? ==> r.form == s.form.(link := e.link)
    ensures e.MessageTyped? ==> r.form == s.form.(message := e.message)
    ensures e.ButtonTextTyped? ==> r.form == s.form.(buttonText := e.buttonText)
    ensures e.EnabledSwitched? ==> r.form == s.form.(enabled := e.enabled)
  {
    var f := s.form;
    var f' := match e
      case WordTyped(w) => f.(word := w)
      case LinkTyped(l) => f.(link := l)
      case MessageTyped(m) => f.(message := m)
      case ButtonTextTyped(b) => f.(buttonText := b)
      case EnabledSwitched(b) => f.(enabled := b);
    s.(form := f')
  }

  /** `handleSubmit`. A blank word is refused first, then a blank link; a
      refusal changes no state and calls no store operation. Otherwise the
      untrimmed form goes to `updateKeyword` for the keyword being edited, or
      to `addKeyword` when none is, and the dialog closes on a reset form. */
  function Submit(s: FormState): (r: SubmitResult)
    ensures r.outcome.Rejected? <==> Text.IsBlank(s.form.word) || Text.IsBlank(s.form.link)
    ensures r.outcome.Rejected? ==> r.state == s
    ensures r.outcome == Rejected(MissingWord) <==> Text.IsBlank(s.form.word)
    ensures r.outcome.Dispatched? ==> r.state == FormState(false, None, EmptyForm)
    ensures r.outcome.Dispatched? && s.editing.Some? ==>
      r.outcome.call == CallUpdate(s.editing.value.id, PatchOf(s.form))
    ensures r.outcome.Dispatched? && s.editing.None? ==>
      r.outcome.call == CallAdd(DraftOf(s.form))
  {
    if Text.Trim(s.form.word) == [] then SubmitResult(Rejected(MissingWord), s)
    else if Text.Trim(s.form.link) == [] then SubmitResult(Rejected(MissingLink), s)
    else
      var call := if s.editing.Some? then CallUpdate(s.editing.value.id, PatchOf(s.form))
                  else CallAdd(DraftOf(s.form));
      SubmitResult(Dispatched(call), ResetForm(SetDialogOpen(s, false)))
  }

  /** The store after a submit's call; `freshId` and `now` stand for
      `crypto.randomUUID()` and `new Date()`. */
  function ApplyCall(ks: seq<Keyword>, call: StoreCall, freshId: string, now: Timestamp): seq<Keyword>
    requires UseAutomation.FreshId(ks, freshId)
  {
    match call
    case CallAdd(d) => UseAutomation.AddKeyword(ks, d, freshId, now)
    case CallUpdate(id, p) => UseAutomation.UpdateKeyword(ks, id, p)
  }

  /** A submit with its store call carried out: the page state and the list. */
  function HandleSubmit(s: FormState, ks: seq<Keyword>, freshId: string, now: Timestamp): (r: (FormState, seq<Keyword>))
    requires UseAutomation.FreshId(ks, freshId)
    ensures Submit(s).outcome.Rejected? ==> r == (s, ks)
    ensures s.editing.None? && Submit(s).outcome.Dispatched? ==>
      r.1 == ks + [Keyword(freshId, s.form.word, s.form.enabled, s.form.link, s.form.message,
                           s.form.buttonText, now, 0)]
    ensures s.editing.Some? && Submit(s).outcome.Dispatched? ==>
      r.1 == UseAutomation.UpdateKeyword(ks, s.editing.value.id, PatchOf(s.form))
    ensures Submit(s).outcome.Dispatched? ==> r.0 == FormState(false, None, EmptyForm)
  {
    var res := Submit(s);
    match res.outcome
    case Rejected(_) => (res.state, ks)
    case Dispatched(call) => (res.state, ApplyCall(ks, call, freshId, now))
  }

  /** `handleDelete(id)`: the list with no entry left carrying `id`, and
      nothing added. */
  function HandleDelete(ks: seq<Keyword>, id: string): (r: seq<Keyword>)
    ensures forall i :: 0 <= i < |r| ==> r[i].id != id
    ensures forall k :: k in r <==> k in ks && k.id != id
    ensures |r| <= |ks|
    ensures UseAutomation.FreshId(ks, id) ==> r == ks
  {
    var r := UseAutomation.DeleteKeyword(ks, id);
    assert forall i :: 0 <= i < |r| ==> r[i] in r;
    r
  }

  /** Deleting from the page works piece by piece, so the entries that stay
      keep their order. */
  lemma {:induction false} HandleDeleteKeepsOrder(a: seq<Keyword>, b: seq<Keyword>, id: string)
    ensures HandleDelete(a + b, id) == HandleDelete(a, id) + HandleDelete(b, id)
  {
    UseAutomation.DeleteAppend(a, b, id);
  }

  // ---------------------------------------------------------------------------
  // Properties of the form

  /** A refused submit calls nothing, and a word that is blank is reported even
      when the link is blank too. */
  lemma BlankWordWins(s: FormState)
    requires Text.IsBlank(s.form.word)
    ensures Submit(s) == SubmitResult(Rejected(MissingWord), s)
  {
  }

  /** Opening for a keyword and submitting without touching the form leaves
      the list as it was, when the ids are distinct. */
  lemma EditWithoutChangesKeepsList(s: FormState, ks: seq<Keyword>, i: nat, freshId: string, now: Timestamp)
    requires i < |ks| && UseAutomation.IdsDistinct(ks) && UseAutomation.FreshId(ks, freshId)
    ensures HandleSubmit(OpenDialog(s, Some(ks[i])), ks, freshId, now).1 == ks
  {
    var o := OpenDialog(s, Some(ks[i]));
    if Submit(o).outcome.Dispatched? {
      var r := UseAutomation.UpdateKeyword(ks, ks[i].id, PatchOf(o.form));
      forall j | 0 <= j < |ks| ensures r[j] == ks[j] {
        if ks[j].id == ks[i].id {
          assert j == i;
        }
      }
    }
  }

  /** Opening for a keyword and submitting without touching the form leaves
      that keyword as it was, whatever the other ids. */
  lemma EditWithoutChangesKeepsKeyword(s: FormState, ks: seq<Keyword>, i: nat, freshId: string, now: Timestamp)
    requires i < |ks| && UseAutomation.FreshId(ks, freshId)
    ensures |HandleSubmit(OpenDialog(s, Some(ks[i])), ks, freshId, now).1| == |ks|
    ensures HandleSubmit(OpenDialog(s, Some(ks[i])), ks, freshId, now).1[i] == ks[i]
  {
  }

  /** The page starts closed with an empty form, and opening it for a new
      keyword from there gives the same form. */
  lemma OpenForNewIsReset(s: FormState)
    ensures OpenDialog(s, None) == FormState(true, None, EmptyForm)
    ensures OpenDialog(InitialState, None).form == InitialState.form
  {
  }
}
