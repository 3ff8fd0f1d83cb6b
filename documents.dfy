/**
 * The Documents tab: a raw document list item becomes an `IDocumentItem`.
 * The mapping cannot throw; Notes go through the strip-and-trim `stripHtml`.
 */
module Documents {
  import opened JsValues
  import opened ListItems

  datatype RawDocument = RawDocument(
    DocumentCode: Option<string>,
    Title: Option<string>,
    Revision: Option<string>,
    Status: Option<string>,
    IssuePurpose: Option<string>,
    ApprovalCode: Option<string>,
    SentDate: Option<string>,
    ExpectedReturnDate: Option<string>,
    ActualReturnDate: Option<string>,
    TurnaroundDays: Option<int>,
    DaysLate: Option<int>,
    AssignedTo: Option<RawLookup>,
    Notes: Option<string>,
    Modified: Option<string>,
    Created: Option<string>,
    Author: Option<RawLookup>,
    Editor: Option<RawLookup>)

  datatype DocumentItem = DocumentItem(
    DocumentCode: string,
    Title: string,
    Revision: string,
    Status: string,
    IssuePurpose: string,
    ApprovalCode: string,
    SentDate: string,
    ExpectedReturnDate: string,
    ActualReturnDate: string,
    TurnaroundDays: int,
    DaysLate: int,
    AssignedTo: Option<UserRef>,
    Notes: string,
    Modified: string,
    Created: string,
    CreatedBy: string,
    ModifiedBy: string)

  /** The per-row mapping: defaults for every missing field. */
  function MapDocument(raw: RawDocument): (d: DocumentItem)
    ensures d.DocumentCode == OrEmpty(raw.DocumentCode)
    ensures d.Title == OrEmpty(raw.Title)
    ensures d.Revision == OrEmpty(raw.Revision)
    ensures d.Status == OrEmpty(raw.Status)
    ensures d.IssuePurpose == OrEmpty(raw.IssuePurpose)
    ensures d.ApprovalCode == OrEmpty(raw.ApprovalCode)
    ensures d.SentDate == OrEmpty(raw.SentDate)
    ensures d.ExpectedReturnDate == OrEmpty(raw.ExpectedReturnDate)
    ensures d.ActualReturnDate == OrEmpty(raw.ActualReturnDate)
    ensures d.Modified == OrEmpty(raw.Modified)
    ensures d.Created == OrEmpty(raw.Created)
    ensures d.TurnaroundDays == OrZero(raw.TurnaroundDays)
    ensures d.DaysLate == OrZero(raw.DaysLate)
    ensures d.AssignedTo.Some? <==> raw.AssignedTo.Some?
    ensures d.AssignedTo.Some? ==> d.AssignedTo.value == UserRef(raw.AssignedTo.value.Id, raw.AssignedTo.value.Title)
    ensures !TextTruthy(raw.Notes) ==> d.Notes == ""
    ensures d.Notes == CleanNotes(raw.Notes)
    ensures d.CreatedBy == TitleOr(raw.Author) && d.ModifiedBy == TitleOr(raw.Editor)
  {
    DocumentItem(
      OrEmpty(raw.DocumentCode),
      OrEmpty(raw.Title),
      OrEmpty(raw.Revision),
      OrEmpty(raw.Status),
      OrEmpty(raw.IssuePurpose),
      OrEmpty(raw.ApprovalCode),
      OrEmpty(raw.SentDate),
      OrEmpty(raw.ExpectedReturnDate),
      OrEmpty(raw.ActualReturnDate),
      OrZero(raw.TurnaroundDays),
      OrZero(raw.DaysLate),
      match raw.AssignedTo
        case None => None
        case Some(l) => Some(UserRefOf(l)),
      CleanNotes(raw.Notes),
      OrEmpty(raw.Modified),
      OrEmpty(raw.Created),
      TitleOr(raw.Author),
      TitleOr(raw.Editor))
  }

  /** A raw item carrying every field of `d`, with `Author`/`Editor` holding the titles. */
  function RawOf(d: DocumentItem): RawDocument {
    RawDocument(
      Some(d.DocumentCode), Some(d.Title), Some(d.Revision), Some(d.Status),
      Some(d.IssuePurpose), Some(d.ApprovalCode), Some(d.SentDate),
      Some(d.ExpectedReturnDate), Some(d.ActualReturnDate),
      Some(d.TurnaroundDays), Some(d.DaysLate),
      match d.AssignedTo
        case None => None
        case Some(u) => Some(EmptyLookup.(Id := u.Id, Title := u.Title)),
      Some(d.Notes), Some(d.Modified), Some(d.Created),
      Some(TitleLookup(d.CreatedBy)), Some(TitleLookup(d.ModifiedBy)))
  }

  /** Every item whose Notes are already clean survives a trip through the list unchanged. */
  lemma MapDocumentRoundTrip(d: DocumentItem)
    requires CleanText(d.Notes)
    ensures MapDocument(RawOf(d)) == d
  {
    var raw := RawOf(d);
    CleanNotesKeepsClean(raw.Notes);
    assert CleanNotes(raw.Notes) == d.Notes;
    assert TitleOr(raw.Author) == d.CreatedBy && TitleOr(raw.Editor) == d.ModifiedBy;
  }

  /** The Notes column is always clean. */
  lemma DocumentNotesClean(raw: RawDocument)
    ensures CleanText(MapDocument(raw).Notes)
  {
    CleanNotesIsClean(raw.Notes);
  }

  /** The fetch: all rows mapped, or no items when the request failed. */
  function LoadDocuments(data: Option<seq<RawDocument>>): (items: seq<DocumentItem>)
    ensures data.None? ==> items == []
    ensures data.Some? ==> |items| == |data.value|
    ensures data.Some? ==> forall i :: 0 <= i < |items| ==> items[i] == MapDocument(data.value[i])
  {
    LoadOrEmpty(data, (r: RawDocument) => Some(MapDocument(r)))
  }
}
