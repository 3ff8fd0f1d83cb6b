/**
 * What the list tabs share: the raw expanded-lookup record the list service
 * returns, the picture-lookup outcome, the all-or-nothing `data.map` inside a
 * `try { ... } catch { setItems([]) }`, and the Yes/No cell.
 */
module ListItems {
  import opened JsValues
  import JsStrings
  import Html

  /** An expanded lookup (`ProjectCode`, `AssignedTo`, `Author`, ...): any subfield may be missing. */
  datatype RawLookup = RawLookup(
    Id: Option<int>,
    Title: Option<string>,
    EMail: Option<string>,
    ProjectCode: Option<string>,
    DocumentCode: Option<string>,
    Revision: Option<string>,
    Picture: Option<string>)

  /** A lookup with every subfield missing. */
  const EmptyLookup := RawLookup(None, None, None, None, None, None, None)

  /** `{ Id, Title }` copied out of a lookup. */
  datatype UserRef = UserRef(Id: Option<int>, Title: Option<string>)

  function UserRefOf(l: RawLookup): (u: UserRef)
    ensures u.Id == l.Id && u.Title == l.Title
  {
    UserRef(l.Id, l.Title)
  }

  /** The outcome of an awaited profile-picture lookup: a URL (maybe none), or a rejection. */
  datatype PictureResult = Picture(url: Option<string>) | LookupFailed

  /**
   * `rows.map(f)` where `f` may throw (a `None`): the mapped list when no row
   * throws, and `None` as soon as one does.
   */
  function MapAll<R, I>(rows: seq<R>, f: R -> Option<I>): (r: Option<seq<I>>)
    ensures r.Some? <==> forall i :: 0 <= i < |rows| ==> f(rows[i]).Some?
    ensures r.Some? ==> |r.value| == |rows|
    ensures r.Some? ==> forall i :: 0 <= i < |rows| ==> r.value[i] == f(rows[i]).value
    decreases |rows|
  {
    if rows == [] then Some([])
    else
      match f(rows[0])
      case None => None
      case Some(x) =>
        match MapAll(rows[1..], f)
        case None => None
        case Some(xs) => Some([x] + xs)
  }

  /**
   * A tab's fetch: the service result (`None` when the request threw) mapped
   * row by row; any failure leaves the tab with no items.
   */
  function LoadOrEmpty<R, I>(data: Option<seq<R>>, f: R -> Option<I>): (items: seq<I>)
    ensures data.None? ==> items == []
    ensures data.Some? && (exists i :: 0 <= i < |data.value| && f(data.value[i]).None?) ==> items == []
    ensures data.Some? && (forall i :: 0 <= i < |data.value| ==> f(data.value[i]).Some?) ==>
      |items| == |data.value| && forall i :: 0 <= i < |items| ==> items[i] == f(data.value[i]).value
  {
    match data
    case None => []
    case Some(rows) =>
      match MapAll(rows, f)
      case None => []
      case Some(xs) => xs
  }

  /** `flag ? 'Yes' : 'No'`. */
  function YesNo(flag: bool): (cell: string)
    ensures cell == "Yes" <==> flag
    ensures cell == "No" <==> !flag
  {
    if flag then "Yes" else "No"
  }

  /** `lookup?.Title || ''`: the title of an optional lookup, or `''`. */
  function TitleOr(l: Option<RawLookup>): (t: string)
    ensures l.None? ==> t == ""
    ensures l.Some? && l.value.Title.Some? ==> t == l.value.Title.value
    ensures l.Some? && l.value.Title.None? ==> t == ""
  {
    match l
    case None => ""
    case Some(u) => OrEmpty(u.Title)
  }

  /** A lookup holding just a title, as the list returns `Author`/`Editor`. */
  function TitleLookup(t: string): RawLookup {
    EmptyLookup.(Title := Some(t))
  }

  /** Text without tags and without surrounding whitespace. */
  predicate CleanText(t: string) {
    Html.TagFree(t) && JsStrings.Trim(t) == t
  }

  /** `notes ? stripHtml(notes) : ''` with the strip-and-trim `stripHtml`. */
  function CleanNotes(notes: Option<string>): (text: string)
    ensures !TextTruthy(notes) ==> text == ""
    ensures TextTruthy(notes) ==> text == Html.StripTagsTrim(notes.value) && |text| <= |notes.value|
  {
    if TextTruthy(notes) then
      Html.StripTagsTrimFacts(notes.value);
      Html.StripTagsTrim(notes.value)
    else ""
  }

  /** The notes shown are always clean: no tag left, no surrounding whitespace. */
  lemma CleanNotesIsClean(notes: Option<string>)
    ensures CleanText(CleanNotes(notes))
  {
    if TextTruthy(notes) {
      var t := Html.StripTagsTrim(notes.value);
      Html.StripTagsTrimFacts(notes.value);
      JsStrings.TrimOfTrimmed(t);
    }
  }

  /** Notes that are already clean are shown unchanged. */
  lemma CleanNotesKeepsClean(notes: Option<string>)
    requires notes.Some? && CleanText(notes.value)
    ensures CleanNotes(notes) == notes.value
  {
    if notes.value != "" {
      Html.StripTagsTrimOfClean(notes.value);
    }
  }
}
