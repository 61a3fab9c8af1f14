/** The add/edit member dialog: a form loaded from the member being edited,
    turned into a person payload on save and handed to the create or the
    update call of the person backend. */
module MemberDialog {
  import opened Wrappers
  import opened FamilyModel
  import FamilyService

  /** The person record the dialog edits. Names may be missing at run time,
      so they are optional like the other fields. */
  datatype PersonMember = PersonMember(
    id: int,
    firstName: Option<string>,
    lastName: Option<string>,
    gender: Option<string>,
    dateOfBirth: Option<string>,
    dateOfDeath: Option<string>,
    notes: Option<string>,
    photoUrl: Option<string>)

  datatype Mode = Add | Edit

  /** What the opener passes in. `parentId` and `generation` are carried but
      not read by the dialog. */
  datatype DialogData = DialogData(
    mode: Mode,
    parentId: Option<int>,
    generation: Option<int>,
    member: Option<PersonMember>)

  /** The form's seven text controls. */
  datatype Form = Form(
    firstName: string,
    lastName: string,
    gender: string,
    dateOfBirth: string,
    dateOfDeath: string,
    notes: string,
    photoUrl: string)

  /** A person without id and creation time: what is sent to the backend. */
  datatype PersonDraft = PersonDraft(
    firstName: string,
    lastName: string,
    gender: string,
    dateOfBirth: Option<string>,
    dateOfDeath: Option<string>,
    notes: Option<string>,
    photoUrl: Option<string>)

  /** The two backend calls the dialog can make; neither is defined in the
      family service. */
  datatype PersonCall = CreatePerson(draft: PersonDraft) | UpdatePerson(id: int, draft: PersonDraft)

  /** The value the dialog is closed with. */
  datatype CloseResult = CloseResult(action: string, member: Option<PersonMember>)

  /** What one user action does: the backend call made, if any, and the
      close result, if the dialog closes. */
  datatype Outcome = Outcome(call: Option<PersonCall>, closed: Option<CloseResult>)

  datatype Dialog = Dialog(data: DialogData, form: Form, existingMembers: seq<TreeMember>)

  const Unknown: string := "UNKNOWN"

  /** The form as first built: empty text everywhere, gender "UNKNOWN". */
  const EmptyForm: Form := Form("", "", Unknown, "", "", "", "")

  /** `value || ''` for an optional text. */
  function TextOr(v: Option<string>): string {
    v.GetOr("")
  }

  /** `value || undefined` for a text: the empty string becomes absent. */
  function NonEmpty(s: string): (r: Option<string>)
    ensures r.None? <==> s == ""
    ensures r.Some? ==> r.value == s
  {
    if s == "" then None else Some(s)
  }

  /** An optional text with the empty string taken as absent. */
  function Normalize(v: Option<string>): (r: Option<string>)
    ensures r.Some? ==> v == r && r.value != ""
    ensures v.Some? && v.value != "" ==> r == v
  {
    if v == Some("") then None else v
  }

  /** `patchValue` from a member: each control takes the member's value, a
      missing gender becomes "UNKNOWN" and every other missing value "". */
  function PatchFromMember(m: PersonMember): (f: Form)
    ensures f.firstName == TextOr(m.firstName) && f.lastName == TextOr(m.lastName)
    ensures f.gender == (if m.gender.Some? && m.gender.value != "" then m.gender.value else Unknown)
    ensures NonEmpty(f.dateOfBirth) == Normalize(m.dateOfBirth)
    ensures NonEmpty(f.dateOfDeath) == Normalize(m.dateOfDeath)
    ensures NonEmpty(f.notes) == Normalize(m.notes)
    ensures NonEmpty(f.photoUrl) == Normalize(m.photoUrl)
  {
    Form(TextOr(m.firstName), TextOr(m.lastName),
         if m.gender.Some? && m.gender.value != "" then m.gender.value else Unknown,
         TextOr(m.dateOfBirth), TextOr(m.dateOfDeath), TextOr(m.notes), TextOr(m.photoUrl))
  }

  /** `tree?.members || []`. */
  function ExistingMembers(current: Option<FamilyTree>): (r: seq<TreeMember>)
    ensures current.None? ==> r == []
    ensures current.Some? ==> r == current.value.members
  {
    match current
    case None => []
    case Some(t) => t.members
  }

  /** The constructor: the blank form, patched from the member when one is
      supplied, and the members of the service's current tree. */
  function Open(data: DialogData, current: Option<FamilyTree>): (d: Dialog)
    ensures d.data == data
    ensures data.member.None? ==> d.form == EmptyForm
    ensures data.member.Some? ==> d.form == PatchFromMember(data.member.value)
    ensures d.existingMembers == ExistingMembers(current)
  {
    var form := if data.member.Some? then PatchFromMember(data.member.value) else EmptyForm;
    Dialog(data, form, ExistingMembers(current))
  }

  /** The two required controls are filled in. */
  function FormValid(f: Form): (b: bool)
    ensures b ==> |f.firstName| > 0 && |f.lastName| > 0
    ensures !b ==> f.firstName == "" || f.lastName == ""
  {
    f.firstName != "" && f.lastName != ""
  }

  /** The payload `save` builds: names as typed, an empty gender replaced by
      "UNKNOWN", empty optional texts left out. */
  function BuildPayload(f: Form): (p: PersonDraft)
    ensures p.firstName == f.firstName && p.lastName == f.lastName
    ensures p.gender != ""
    ensures p.gender == (if f.gender == "" then Unknown else f.gender)
    ensures p.dateOfBirth == NonEmpty(f.dateOfBirth) && p.dateOfDeath == NonEmpty(f.dateOfDeath)
    ensures p.notes == NonEmpty(f.notes) && p.photoUrl == NonEmpty(f.photoUrl)
  {
    PersonDraft(f.firstName, f.lastName, if f.gender == "" then Unknown else f.gender,
                NonEmpty(f.dateOfBirth), NonEmpty(f.dateOfDeath), NonEmpty(f.notes), NonEmpty(f.photoUrl))
  }

  /** `save`, given what the backend call emits: the stored record, or
      `None` when it fails or never emits. Nothing happens on an invalid
      form. Otherwise an edit of a supplied member updates it by its id and
      every other case creates. The dialog closes with the emitted record,
      and stays open when nothing is emitted. */
  function Save(d: Dialog, reply: Option<PersonMember>): (o: Outcome)
    ensures o.call.Some? <==> FormValid(d.form)
    ensures o.closed.Some? <==> o.call.Some? && reply.Some?
    ensures o.call.Some? ==> o.call.value.draft == BuildPayload(d.form)
    ensures o.call.Some? && o.call.value.UpdatePerson? <==>
              FormValid(d.form) && d.data.mode == Edit && d.data.member.Some?
    ensures o.call.Some? && o.call.value.UpdatePerson? ==> o.call.value.id == d.data.member.value.id
    ensures o.closed.Some? ==> o.closed.value.action == (if o.call.value.UpdatePerson? then "updated" else "created")
    ensures o.closed.Some? ==> o.closed.value.member == reply
  {
    if !FormValid(d.form) then Outcome(None, None)
    else
      var payload := BuildPayload(d.form);
      if d.data.mode == Edit && d.data.member.Some? then
        Outcome(Some(UpdatePerson(d.data.member.value.id, payload)),
                if reply.Some? then Some(CloseResult("updated", reply)) else None)
      else
        Outcome(Some(CreatePerson(payload)),
                if reply.Some? then Some(CloseResult("created", reply)) else None)
  }

  /** `cancel`: close with action "cancel", no backend call. */
  function Cancel(d: Dialog): (o: Outcome)
    ensures o.call.None? && o.closed == Some(CloseResult("cancel", None))
  {
    Outcome(None, Some(CloseResult("cancel", None)))
  }

  /** The opener can always tell the outcomes apart: `cancel` makes no call
      and closes with "cancel", which a `save` never closes with. */
  lemma CancelDistinctFromSave(d: Dialog, reply: Option<PersonMember>)
    ensures Cancel(d).call.None? && Cancel(d).closed.Some?
    ensures Save(d, reply).closed.Some? ==>
              Save(d, reply).closed.value.action != Cancel(d).closed.value.action
  {
  }

  /** A dialog opened after any sequence of calls on the family service
      offers the members of the last tree set, or none when no tree was set. */
  lemma ExistingMembersFollowStore(data: DialogData, calls: seq<FamilyService.StoreCall>)
    ensures var d := Open(data, FamilyService.Run(FamilyService.InitialStore, calls).current);
            var last := FamilyService.LastSet(calls);
            d.existingMembers == (if last.Some? then last.value.members else [])
  {
    FamilyService.CurrentTreeFromFresh(calls);
  }

  /** The payload saved from a freshly opened edit dialog gives back the
      member's names and each optional text it had, with empty texts as
      absent and a missing gender as "UNKNOWN"; and it is saved as an
      update of that member exactly when the names are filled in. */
  lemma MemberRoundTrip(data: DialogData, current: Option<FamilyTree>, reply: Option<PersonMember>)
    requires data.member.Some?
    ensures var m := data.member.value;
            var d := Open(data, current);
            var p := BuildPayload(d.form);
      && (FormValid(d.form) <==> TextOr(m.firstName) != "" && TextOr(m.lastName) != "")
      && p.firstName == TextOr(m.firstName) && p.lastName == TextOr(m.lastName)
      && p.gender == (if m.gender.Some? && m.gender.value != "" then m.gender.value else Unknown)
      && p.dateOfBirth == Normalize(m.dateOfBirth)
      && p.dateOfDeath == Normalize(m.dateOfDeath)
      && p.notes == Normalize(m.notes)
      && p.photoUrl == Normalize(m.photoUrl)
      && (data.mode == Edit && FormValid(d.form) ==>
            Save(d, reply).call == Some(UpdatePerson(m.id, p)))
  {
  }

  /** The member a backend would store for a payload under a given id. */
  function MemberFromDraft(id: int, p: PersonDraft): PersonMember {
    PersonMember(id, Some(p.firstName), Some(p.lastName), Some(p.gender),
                 p.dateOfBirth, p.dateOfDeath, p.notes, p.photoUrl)
  }

  /** The other direction: a valid form whose gender is set, saved and
      reopened as that member, shows the same form again. */
  lemma FormRoundTrip(f: Form, id: int)
    requires FormValid(f) && f.gender != ""
    ensures PatchFromMember(MemberFromDraft(id, BuildPayload(f))) == f
  {
  }
}
