/**
 * The Document History tab. Each row's `PerformedBy` picture is awaited from
 * the user service when the row has an e-mail; a rejected lookup rejects the
 * whole `Promise.all`, and the tab then shows no items.
 */
module DocumentHistory {
  import opened JsValues
  import opened ListItems

  datatype RawEntry = RawEntry(
    DocumentId: Option<RawLookup>,
    Action: Option<string>,
    PerformedBy: Option<RawLookup>,
    ActionDate: Option<string>,
    Status: Option<string>,
    ApprovalCode: Option<string>)

  datatype Performer = Performer(
    Id: Option<int>,
    Title: Option<string>,
    EMail: Option<string>,
    Picture: Option<string>)

  datatype HistoryItem = HistoryItem(
    DocumentId: Option<int>,   // `None` stands for the `''` the source falls back to
    DocumentCode: string,
    Revision: string,
    Action: string,
    PerformedBy: Option<Performer>,
    ActionDate: string,
    Status: string,
    ApprovalCode: string)

  /**
   * `PerformedBy ? {Id, Title, EMail, Picture} : undefined`, where the picture
   * is looked up by e-mail only when the e-mail is non-empty; `None` when the lookup rejects.
   */
  function PerformerOf(l: Option<RawLookup>, pictureByEmail: string -> PictureResult): (r: Option<Option<Performer>>)
    ensures l.None? ==> r == Some(None)
    ensures l.Some? && !TextTruthy(l.value.EMail) ==>
      r == Some(Some(Performer(l.value.Id, l.value.Title, l.value.EMail, None)))
    ensures l.Some? && TextTruthy(l.value.EMail) ==>
      (r.None? <==> pictureByEmail(l.value.EMail.value).LookupFailed?)
    ensures r.Some? && r.value.Some? ==>
      r.value.value.Id == l.value.Id && r.value.value.Title == l.value.Title && r.value.value.EMail == l.value.EMail
  {
    match l
    case None => Some(None)
    case Some(u) =>
      if !TextTruthy(u.EMail) then Some(Some(Performer(u.Id, u.Title, u.EMail, None)))
      else
        match pictureByEmail(u.EMail.value)
        case LookupFailed => None
        case Picture(url) => Some(Some(Performer(u.Id, u.Title, u.EMail, url)))
  }

  /** The per-row mapping; `None` when the awaited picture lookup rejects. */
  function MapEntry(raw: RawEntry, pictureByEmail: string -> PictureResult): (r: Option<HistoryItem>)
    ensures r.None? <==> PerformerOf(raw.PerformedBy, pictureByEmail).None?
    ensures r.Some? && raw.DocumentId.None? ==>
      r.value.DocumentId.None? && r.value.DocumentCode == "" && r.value.Revision == ""
    ensures r.Some? && raw.DocumentId.Some? ==>
      r.value.DocumentId == TruthyId(raw.DocumentId.value.Id)
      && r.value.DocumentCode == OrEmpty(raw.DocumentId.value.DocumentCode)
      && r.value.Revision == OrEmpty(raw.DocumentId.value.Revision)
    ensures r.Some? ==> (r.value.PerformedBy.Some? <==> raw.PerformedBy.Some?)
    ensures r.Some? ==> Some(r.value.PerformedBy) == PerformerOf(raw.PerformedBy, pictureByEmail)
    ensures r.Some? ==> r.value.Action == OrEmpty(raw.Action)
    ensures r.Some? ==> r.value.ActionDate == OrEmpty(raw.ActionDate)
    ensures r.Some? ==> r.value.Status == OrEmpty(raw.Status)
    ensures r.Some? ==> r.value.ApprovalCode == OrEmpty(raw.ApprovalCode)
  {
    match PerformerOf(raw.PerformedBy, pictureByEmail)
    case None => None
    case Some(performer) =>
      Some(HistoryItem(
        match raw.DocumentId
          case None => None
          case Some(d) => TruthyId(d.Id),
        match raw.DocumentId
          case None => ""
          case Some(d) => OrEmpty(d.DocumentCode),
        match raw.DocumentId
          case None => ""
          case Some(d) => OrEmpty(d.Revision),
        OrEmpty(raw.Action),
        performer,
        OrEmpty(raw.ActionDate),
        OrEmpty(raw.Status),
        OrEmpty(raw.ApprovalCode)))
  }

  /** The picture service is consulted only for rows with an e-mail: other rows map the same under any service. */
  lemma NoEmailNoLookup(raw: RawEntry, p1: string -> PictureResult, p2: string -> PictureResult)
    requires raw.PerformedBy.None? || !TextTruthy(raw.PerformedBy.value.EMail)
    ensures MapEntry(raw, p1) == MapEntry(raw, p2)
    ensures MapEntry(raw, p1).Some?
  {
    assert PerformerOf(raw.PerformedBy, p1) == PerformerOf(raw.PerformedBy, p2);
  }

  /** The fetch: every row mapped, or no items when the request or any picture lookup failed. */
  function LoadHistory(data: Option<seq<RawEntry>>, pictureByEmail: string -> PictureResult): (items: seq<HistoryItem>)
    ensures data.None? ==> items == []
    ensures data.Some? && (exists i :: 0 <= i < |data.value| && MapEntry(data.value[i], pictureByEmail).None?) ==> items == []
    ensures data.Some? && (forall i :: 0 <= i < |data.value| ==> MapEntry(data.value[i], pictureByEmail).Some?) ==>
      |items| == |data.value| && forall i :: 0 <= i < |items| ==> Some(items[i]) == MapEntry(data.value[i], pictureByEmail)
  {
    LoadOrEmpty(data, (r: RawEntry) => MapEntry(r, pictureByEmail))
  }

  /** When no picture lookup fails, every row is shown. */
  lemma LoadHistoryTotal(data: seq<RawEntry>, pictureByEmail: string -> PictureResult)
    requires forall e :: !pictureByEmail(e).LookupFailed?
    ensures |LoadHistory(Some(data), pictureByEmail)| == |data|
  {
    forall i | 0 <= i < |data|
      ensures MapEntry(data[i], pictureByEmail).Some?
    {
      var l := data[i].PerformedBy;
      if l.Some? && TextTruthy(l.value.EMail) {
        assert !pictureByEmail(l.value.EMail.value).LookupFailed?;
      }
    }
  }

  /** What the Performed By column renders. */
  datatype PerformedByCell =
    | Blank                                                        // `''`
    | HoverCard(email: string, displayName: Option<string>, picture: Option<string>)
    | RenderError                                                  // `item.PerformedBy.EMail` on a missing PerformedBy

  function PerformedByCellOf(item: HistoryItem): (cell: PerformedByCell)
    ensures item.PerformedBy.None? <==> cell.RenderError?
    ensures cell.Blank? <==> item.PerformedBy.Some? && !TextTruthy(item.PerformedBy.value.EMail)
    ensures cell.HoverCard? ==>
      Some(cell.email) == item.PerformedBy.value.EMail && cell.email != ""
      && cell.displayName == item.PerformedBy.value.Title && cell.picture == item.PerformedBy.value.Picture
  {
    match item.PerformedBy
    case None => RenderError
    case Some(p) =>
      if !TextTruthy(p.EMail) then Blank
      else HoverCard(p.EMail.value, p.Title, p.Picture)
  }
}
