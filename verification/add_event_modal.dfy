/** The add / edit event form (AddEventModal): the datetime-local conversion,
    the submit handler's validation and write, the form reset when the edited
    event changes, and the submit button's label. Date parsing and ISO
    formatting are a parameter `toIso` (what `new Date(s).toISOString()` gives
    for `s`); the write's outcome is an input. */
module AddEventModal {
  import opened Basics

  /** An event as the form receives it; times are ISO strings. */
  datatype EventRecord = EventRecord(
    id: string, groupId: string, userId: Option<string>, title: string,
    description: Option<string>, startTime: string, endTime: string)

  /** The columns the form writes. */
  datatype EventFields = EventFields(title: string, description: Option<string>, startTime: string, endTime: string)

  /** The write a submit issues. */
  datatype Write =
    | Insert(groupId: string, userId: string, fields: EventFields)
    | Update(id: string, fields: EventFields)

  datatype Plan = Issue(write: Write) | Reject(message: string)

  const FillAllFields: string := "กรุณากรอกข้อมูลให้ครบ"
  const UserNotFound: string := "ไม่พบข้อมูลผู้ใช้งาน"
  const UnexpectedError: string := "เกิดข้อผิดพลาดที่ไม่คาดคิด"

  /** `toLocalDatetime`: "" for a missing or empty input; otherwise the first 16
      characters (YYYY-MM-DDTHH:mm) of the input's ISO form, or all of it when shorter. */
  function ToLocalDatetime(iso: Option<string>, toIso: string -> string): (r: string)
    ensures !Truthy(iso) ==> r == ""
    ensures Truthy(iso) ==> StartsWith(toIso(iso.value), r)
    ensures Truthy(iso) ==> |r| == if |toIso(iso.value)| < 16 then |toIso(iso.value)| else 16
  {
    if !Truthy(iso) then ""
    else
      var s := toIso(iso.value);
      if |s| < 16 then s else s[..16]
  }

  /** `description || null` */
  function StoredDescription(description: string): (r: Option<string>)
    ensures r.None? <==> description == ""
    ensures r.Some? ==> r.value == description
  {
    if description == "" then None else Some(description)
  }

  /** The decision of `handleSubmit`: the field check comes first, then the
      user check; a valid form issues exactly one write, an update of the
      edited event or an insert carrying the group and the user. End before
      start is not rejected. */
  function PlanSubmit(title: string, description: string, startTime: string, endTime: string,
                      groupId: string, userId: Option<string>, eventToEdit: Option<EventRecord>,
                      toIso: string -> string): (r: Plan)
    ensures title == "" || startTime == "" || endTime == "" ==> r == Reject(FillAllFields)
    ensures title != "" && startTime != "" && endTime != "" && !Truthy(userId) ==> r == Reject(UserNotFound)
    ensures r.Issue? <==> title != "" && startTime != "" && endTime != "" && Truthy(userId)
    ensures r.Issue? ==> (r.write.Update? <==> eventToEdit.Some?)
    ensures r.Issue? && r.write.Update? ==> r.write.id == eventToEdit.value.id
    ensures r.Issue? && r.write.Insert? ==> r.write.groupId == groupId && Some(r.write.userId) == userId
    ensures r.Issue? ==> r.write.fields == EventFields(title, StoredDescription(description), toIso(startTime), toIso(endTime))
  {
    if title == "" || startTime == "" || endTime == "" then Reject(FillAllFields)
    else if !Truthy(userId) then Reject(UserNotFound)
    else
      var fields := EventFields(title, StoredDescription(description), toIso(startTime), toIso(endTime));
      if eventToEdit.Some? then Issue(Update(eventToEdit.value.id, fields))
      else Issue(Insert(groupId, userId.value, fields))
  }

  /** The submit button's text. */
  function SubmitLabel(loading: bool, editing: bool): (r: string)
    ensures loading ==> r == "กำลังบันทึก..."
    ensures !loading && editing ==> r == "บันทึกการแก้ไข"
    ensures !loading && !editing ==> r == "บันทึกกิจกรรม"
  {
    if loading then "กำลังบันทึก..." else if editing then "บันทึกการแก้ไข" else "บันทึกกิจกรรม"
  }

  class EventForm {
    var title: string
    var description: string
    var startTime: string
    var endTime: string
    var loading: bool
    var error: Option<string>
    var success: bool

    /** The initial form: loaded from the edited event, blank without one. */
    constructor (eventToEdit: Option<EventRecord>, toIso: string -> string)
      ensures eventToEdit.None? ==> title == "" && description == "" && startTime == "" && endTime == ""
      ensures eventToEdit.Some? ==>
        && title == eventToEdit.value.title
        && description == OrElse(eventToEdit.value.description, "")
        && startTime == ToLocalDatetime(Some(eventToEdit.value.startTime), toIso)
        && endTime == ToLocalDatetime(Some(eventToEdit.value.endTime), toIso)
      ensures !loading && error == None && !success
    {
      title := if eventToEdit.Some? then OrElse(Some(eventToEdit.value.title), "") else "";
      description := if eventToEdit.Some? then OrElse(eventToEdit.value.description, "") else "";
      startTime := ToLocalDatetime(if eventToEdit.Some? then Some(eventToEdit.value.startTime) else None, toIso);
      endTime := ToLocalDatetime(if eventToEdit.Some? then Some(eventToEdit.value.endTime) else None, toIso);
      loading := false;
      error := None;
      success := false;
    }

    /** The effect run when `eventToEdit` changes: load its fields, or clear all four. */
    method Reset(eventToEdit: Option<EventRecord>, toIso: string -> string)
      modifies this`title, this`description, this`startTime, this`endTime
      ensures eventToEdit.None? ==> title == "" && description == "" && startTime == "" && endTime == ""
      ensures eventToEdit.Some? ==>
        && title == eventToEdit.value.title
        && description == OrElse(eventToEdit.value.description, "")
        && startTime == ToLocalDatetime(Some(eventToEdit.value.startTime), toIso)
        && endTime == ToLocalDatetime(Some(eventToEdit.value.endTime), toIso)
    {
      if eventToEdit.Some? {
        var ev := eventToEdit.value;
        title := ev.title;
        description := OrElse(ev.description, "");
        startTime := ToLocalDatetime(Some(ev.startTime), toIso);
        endTime := ToLocalDatetime(Some(ev.endTime), toIso);
      } else {
        title := "";
        description := "";
        startTime := "";
        endTime := "";
      }
    }

    /** `handleSubmit`. `writeError` is the error the write answers with (its
        message may be empty). Returns the write issued, if any. */
    method Submit(groupId: string, userId: Option<string>, eventToEdit: Option<EventRecord>,
                  toIso: string -> string, writeError: Option<string>)
      returns (issued: Option<Write>)
      modifies this`loading, this`error, this`success
      ensures var plan := PlanSubmit(title, description, startTime, endTime, groupId, userId, eventToEdit, toIso);
        && (plan.Reject? ==> issued.None? && error == Some(plan.message) && !success && loading == old(loading))
        && (plan.Issue? ==> issued == Some(plan.write) && !loading)
        && (plan.Issue? && writeError.None? ==> success && error == None)
        && (plan.Issue? && writeError.Some? ==> !success && error == Some(OrElse(writeError, UnexpectedError)))
    {
      error := None;
      success := false;
      if title == "" || startTime == "" || endTime == "" {
        error := Some(FillAllFields);
        return None;
      }
      if !Truthy(userId) {
        error := Some(UserNotFound);
        return None;
      }
      loading := true;
      var fields := EventFields(title, StoredDescription(description), toIso(startTime), toIso(endTime));
      if eventToEdit.Some? {
        issued := Some(Update(eventToEdit.value.id, fields));
      } else {
        issued := Some(Insert(groupId, userId.value, fields));
      }
      if writeError.None? {
        success := true;
      } else {
        error := Some(OrElse(writeError, UnexpectedError));
      }
      loading := false;
    }
  }
}
