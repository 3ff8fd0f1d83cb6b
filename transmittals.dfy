/**
 * The Transmittals tab. The `ProjectCode` lookup is dereferenced without a
 * guard, so a row without it throws and the tab shows no items. The Subject
 * column is filled from Notes, not from Subject: a non-empty Subject only
 * decides whether `stripHtml(Notes)` is shown, and a missing Notes then throws.
 */
module Transmittals {
  import opened JsValues
  import opened ListItems
  import Html
  import JsStrings

  datatype RawTransmittal = RawTransmittal(
    TransmittalNumber: Option<string>,
    ProjectCode: Option<RawLookup>,
    RecipientEmail: Option<string>,
    RecipientName: Option<string>,
    SenderEmail: Option<string>,
    SenderName: Option<string>,
    SentDate: Option<string>,
    Subject: Option<string>,
    Status: Option<string>,
    Notes: Option<string>,
    Modified: Option<string>,
    Created: Option<string>,
    Author: Option<RawLookup>,
    Editor: Option<RawLookup>)

  datatype TransmittalItem = TransmittalItem(
    TransmittalNumber: string,
    ProjectCode: string,
    ProjectTitle: string,
    RecipientEmail: string,
    RecipientName: string,
    SenderEmail: string,
    SenderName: string,
    SentDate: string,
    Subject: string,
    Status: string,
    Notes: string,
    Modified: string,
    Created: string,
    CreatedBy: string,
    ModifiedBy: string)

  /** `item.Subject ? stripHtml(item.Notes) : ''`; `None` when it throws on a missing Notes. */
  function SubjectText(subject: Option<string>, notes: Option<string>): (r: Option<string>)
    ensures r.None? <==> TextTruthy(subject) && notes.None?
    ensures !TextTruthy(subject) ==> r == Some("")
    ensures TextTruthy(subject) && notes.Some? ==> r == Some(Html.StripTagsTrim(notes.value))
  {
    if !TextTruthy(subject) then Some("")
    else if notes.None? then None
    else Some(Html.StripTagsTrim(notes.value))
  }

  /** The per-row mapping; `None` when the row throws. */
  function MapTransmittal(raw: RawTransmittal): (r: Option<TransmittalItem>)
    ensures r.None? <==> raw.ProjectCode.None? || (TextTruthy(raw.Subject) && raw.Notes.None?)
    ensures r.Some? ==> r.value.ProjectCode == OrEmpty(raw.ProjectCode.value.ProjectCode)
    ensures r.Some? ==> r.value.ProjectTitle == OrEmpty(raw.ProjectCode.value.Title)
    ensures r.Some? && !TextTruthy(raw.Notes) ==> r.value.Notes == ""
    ensures r.Some? && TextTruthy(raw.Notes) ==> r.value.Notes == Html.StripTagsTrim(raw.Notes.value)
    ensures r.Some? && !TextTruthy(raw.Subject) ==> r.value.Subject == ""
    ensures r.Some? && TextTruthy(raw.Subject) ==> r.value.Subject == Html.StripTagsTrim(raw.Notes.value)
    ensures r.Some? ==> r.value.TransmittalNumber == OrEmpty(raw.TransmittalNumber)
    ensures r.Some? ==> r.value.RecipientEmail == OrEmpty(raw.RecipientEmail)
    ensures r.Some? ==> r.value.RecipientName == OrEmpty(raw.RecipientName)
    ensures r.Some? ==> r.value.SenderEmail == OrEmpty(raw.SenderEmail)
    ensures r.Some? ==> r.value.SenderName == OrEmpty(raw.SenderName)
    ensures r.Some? ==> r.value.SentDate == OrEmpty(raw.SentDate)
    ensures r.Some? ==> r.value.Status == OrEmpty(raw.Status)
    ensures r.Some? ==> r.value.Modified == OrEmpty(raw.Modified)
    ensures r.Some? ==> r.value.Created == OrEmpty(raw.Created)
    ensures r.Some? ==> r.value.CreatedBy == TitleOr(raw.Author) && r.value.ModifiedBy == TitleOr(raw.Editor)
  {
    match raw.ProjectCode
    case None => None
    case Some(project) =>
      match SubjectText(raw.Subject, raw.Notes)
      case None => None
      case Some(subject) =>
        Some(TransmittalItem(
          OrEmpty(raw.TransmittalNumber),
          OrEmpty(project.ProjectCode),
          OrEmpty(project.Title),
          OrEmpty(raw.RecipientEmail),
          OrEmpty(raw.RecipientName),
          OrEmpty(raw.SenderEmail),
          OrEmpty(raw.SenderName),
          OrEmpty(raw.SentDate),
          subject,
          OrEmpty(raw.Status),
          CleanNotes(raw.Notes),
          OrEmpty(raw.Modified),
          OrEmpty(raw.Created),
          TitleOr(raw.Author),
          TitleOr(raw.Editor)))
  }

  /** Whenever Subject is non-empty, the Subject column shows exactly the Notes column. */
  lemma SubjectMirrorsNotes(raw: RawTransmittal)
    requires TextTruthy(raw.Subject) && MapTransmittal(raw).Some?
    ensures MapTransmittal(raw).value.Subject == MapTransmittal(raw).value.Notes
  {
    var item := MapTransmittal(raw).value;
    assert item.Subject == Html.StripTagsTrim(raw.Notes.value);
    if raw.Notes.value == "" {
      assert Html.StripTagsTrim("") == "" by {
        assert Html.StripTags("") == "";
        JsStrings.TrimOfTrimmed("");
      }
    }
  }

  /** The Notes and Subject columns are always clean. */
  lemma TransmittalTextClean(raw: RawTransmittal)
    requires MapTransmittal(raw).Some?
    ensures CleanText(MapTransmittal(raw).value.Notes)
    ensures CleanText(MapTransmittal(raw).value.Subject)
  {
    CleanNotesIsClean(raw.Notes);
    if TextTruthy(raw.Subject) {
      SubjectMirrorsNotes(raw);
    }
  }

  /** The Subject's own text never reaches the item: two rows differing only in Subject text map alike. */
  lemma SubjectTextIgnored(raw: RawTransmittal, other: string)
    requires TextTruthy(raw.Subject) && other != ""
    ensures MapTransmittal(raw.(Subject := Some(other))) == MapTransmittal(raw)
  {
    var moved := raw.(Subject := Some(other));
    assert SubjectText(moved.Subject, moved.Notes) == SubjectText(raw.Subject, raw.Notes);
  }

  /** The fetch: every row mapped, or no items when the request or any row failed. */
  function LoadTransmittals(data: Option<seq<RawTransmittal>>): (items: seq<TransmittalItem>)
    ensures data.None? ==> items == []
    ensures data.Some? && (exists i :: 0 <= i < |data.value| && MapTransmittal(data.value[i]).None?) ==> items == []
    ensures data.Some? && (exists i :: 0 <= i < |data.value| && data.value[i].ProjectCode.None?) ==> items == []
    ensures data.Some? && (exists i :: 0 <= i < |data.value| && TextTruthy(data.value[i].Subject) && data.value[i].Notes.None?) ==>
      items == []
    ensures data.Some? && (forall i :: 0 <= i < |data.value| ==> MapTransmittal(data.value[i]).Some?) ==>
      |items| == |data.value| && forall i :: 0 <= i < |items| ==> Some(items[i]) == MapTransmittal(data.value[i])
  {
    LoadOrEmpty(data, MapTransmittal)
  }
}
