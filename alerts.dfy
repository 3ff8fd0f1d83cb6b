/**
 * The Alerts tab: a raw alert list item becomes an `IAlertItem`, with the
 * rich-text `Message` unwrapped, defaults for every missing field, and the
 * Resolved and Message cells of the grid.
 */
module Alerts {
  import opened JsValues
  import opened ListItems
  import Html

  /**
   * The raw `Message`: a plain string, an object carrying the text under
   * `value`, or an object without a `value` key.
   */
  datatype RawMessage = Plain(text: string) | Wrapped(value: string) | Unkeyed

  /** The mapped `Message`: text, or the `value`-less object passed through as it is. */
  datatype MessageValue = Text(text: string) | Object

  datatype RawAlert = RawAlert(
    Id: Option<int>,
    ProjectCode: Option<RawLookup>,
    DocumentId: Option<RawLookup>,
    AlertType: Option<string>,
    Priority: Option<string>,
    DaysOverdue: Option<int>,
    ExpectedDate: Option<string>,
    Message: Option<RawMessage>,
    AssignedTo: Option<RawLookup>,
    IsResolved: Option<bool>,
    ResolvedDate: Option<string>)

  datatype ProjectRef = ProjectRef(Id: Option<int>, ProjectCode: string)
  datatype DocumentRef = DocumentRef(Id: Option<int>, DocumentCode: string)
  datatype Assignee = Assignee(Id: Option<int>, Title: Option<string>, EMail: Option<string>)

  datatype AlertItem = AlertItem(
    Id: Option<int>,
    ProjectCode: Option<ProjectRef>,
    DocumentId: Option<DocumentRef>,
    AlertType: string,
    Priority: string,
    DaysOverdue: int,
    ExpectedDate: string,
    Message: MessageValue,
    AssignedTo: Option<Assignee>,
    IsResolved: bool,
    ResolvedDate: string)

  /**
   * `Message` unwrapped to `.value` when it is an object with `value`, else
   * the value itself or `''`; an object without `value` is kept as an object.
   */
  function MessageText(m: Option<RawMessage>): (v: MessageValue)
    ensures v.Object? <==> m == Some(Unkeyed)
    ensures m.None? ==> v == Text("")
    ensures m.Some? && m.value.Wrapped? ==> v == Text(m.value.value)
    ensures m.Some? && m.value.Plain? ==> v == Text(m.value.text)
  {
    match m
    case None => Text("")
    case Some(Wrapped(v)) => Text(v)
    case Some(Plain(t)) => Text(t)
    case Some(Unkeyed) => Object
  }

  /** The per-row mapping; it cannot throw. */
  function MapAlert(raw: RawAlert): (a: AlertItem)
    ensures a.Id == raw.Id
    ensures a.ProjectCode.Some? <==> raw.ProjectCode.Some?
    ensures a.ProjectCode.Some? ==>
      a.ProjectCode.value == ProjectRef(raw.ProjectCode.value.Id, OrEmpty(raw.ProjectCode.value.ProjectCode))
    ensures a.DocumentId.Some? <==> raw.DocumentId.Some?
    ensures a.DocumentId.Some? ==>
      a.DocumentId.value == DocumentRef(raw.DocumentId.value.Id, OrEmpty(raw.DocumentId.value.DocumentCode))
    ensures a.AssignedTo.Some? <==> raw.AssignedTo.Some?
    ensures a.AssignedTo.Some? ==>
      var l := raw.AssignedTo.value; a.AssignedTo.value == Assignee(l.Id, l.Title, l.EMail)
    ensures a.AlertType == OrEmpty(raw.AlertType)
    ensures a.Priority == OrEmpty(raw.Priority)
    ensures a.ExpectedDate == OrEmpty(raw.ExpectedDate)
    ensures a.ResolvedDate == OrEmpty(raw.ResolvedDate)
    ensures a.DaysOverdue == OrZero(raw.DaysOverdue)
    ensures a.IsResolved == OrFalse(raw.IsResolved)
    ensures a.Message == MessageText(raw.Message)
  {
    AlertItem(
      raw.Id,
      match raw.ProjectCode
        case None => None
        case Some(l) => Some(ProjectRef(l.Id, OrEmpty(l.ProjectCode))),
      match raw.DocumentId
        case None => None
        case Some(l) => Some(DocumentRef(l.Id, OrEmpty(l.DocumentCode))),
      OrEmpty(raw.AlertType),
      OrEmpty(raw.Priority),
      OrZero(raw.DaysOverdue),
      OrEmpty(raw.ExpectedDate),
      MessageText(raw.Message),
      match raw.AssignedTo
        case None => None
        case Some(l) => Some(Assignee(l.Id, l.Title, l.EMail)),
      OrFalse(raw.IsResolved),
      OrEmpty(raw.ResolvedDate))
  }

  /** A raw item carrying every field of `a`, as the list would return it. */
  function RawOf(a: AlertItem): RawAlert {
    RawAlert(
      a.Id,
      match a.ProjectCode
        case None => None
        case Some(p) => Some(EmptyLookup.(Id := p.Id, ProjectCode := Some(p.ProjectCode))),
      match a.DocumentId
        case None => None
        case Some(d) => Some(EmptyLookup.(Id := d.Id, DocumentCode := Some(d.DocumentCode))),
      Some(a.AlertType), Some(a.Priority), Some(a.DaysOverdue), Some(a.ExpectedDate),
      Some(match a.Message
        case Text(t) => Plain(t)
        case Object => Unkeyed),
      match a.AssignedTo
        case None => None
        case Some(u) => Some(EmptyLookup.(Id := u.Id, Title := u.Title, EMail := u.EMail)),
      Some(a.IsResolved), Some(a.ResolvedDate))
  }

  /** Decoding a fully populated item gives it back: the mapping loses nothing that is present. */
  lemma MapAlertRoundTrip(a: AlertItem)
    ensures MapAlert(RawOf(a)) == a
  {
  }

  /** The same message wrapped in an object or given plainly decodes the same. */
  lemma MessageUnwrapAgrees(t: string)
    ensures MessageText(Some(Wrapped(t))) == MessageText(Some(Plain(t)))
  {
  }

  /** The fetch: all rows mapped, or no items when the request failed. */
  function LoadAlerts(data: Option<seq<RawAlert>>): (items: seq<AlertItem>)
    ensures data.None? ==> items == []
    ensures data.Some? ==> |items| == |data.value|
    ensures data.Some? ==> forall i :: 0 <= i < |items| ==> items[i] == MapAlert(data.value[i])
  {
    LoadOrEmpty(data, (r: RawAlert) => Some(MapAlert(r)))
  }

  /** This tab's `stripHtml`: `''` for empty input, tags removed, no trimming. */
  function StripHtml(html: string): (text: string)
    ensures Html.TagFree(text)
    ensures Html.TagFree(html) ==> text == html
    ensures |text| <= |html|
    ensures text == Html.StripTags(html)
  {
    Html.StripTagsFacts(html);
    if html == "" then "" else Html.StripTags(html)
  }

  /** No trimming: a tag-free message keeps its surrounding spaces. */
  lemma StripHtmlKeepsSpaces(t: string)
    requires Html.TagFree(t)
    ensures StripHtml(" " + t + " ") == " " + t + " "
  {
    var s := " " + t + " ";
    assert Html.TagFree(s) by {
      forall i: nat | i < |s|
        ensures !Html.TagAt(s, i)
      {
        if 1 <= i <= |t| {
          assert s[i] == t[i - 1];
          assert !Html.TagAt(t, i - 1);
          if i + 1 < |t| + 1 {
            assert s[i + 1] == t[i];
            assert s[i + 2..] == t[i + 1..] + " ";
          }
        }
      }
    }
  }

  /** The Resolved cell. */
  function ResolvedCell(a: AlertItem): (cell: string)
    ensures cell == "Yes" <==> a.IsResolved
    ensures cell == "No" <==> !a.IsResolved
  {
    YesNo(a.IsResolved)
  }

  /**
   * The Message cell; `None` when rendering throws. An object is truthy and
   * has no `replace`, so `stripHtml` throws on a message kept as an object.
   */
  function MessageCell(a: AlertItem): (cell: Option<string>)
    ensures cell.None? <==> a.Message.Object?
    ensures cell.Some? ==> Html.TagFree(cell.value)
    ensures a.Message.Text? && Html.TagFree(a.Message.text) ==> cell == Some(a.Message.text)
    ensures a.Message.Text? ==> cell == Some(StripHtml(a.Message.text))
  {
    match a.Message
    case Text(t) => Some(StripHtml(t))
    case Object => None
  }
}
