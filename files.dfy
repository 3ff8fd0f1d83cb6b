/**
 * The Files tab. `Author.Title` and `Editor.Title` are read without a guard,
 * so a row missing either lookup throws and the tab shows no items.
 */
module Files {
  import opened JsValues
  import opened ListItems

  datatype RawFile = RawFile(
    FileLeafRef: Option<string>,
    CheckoutUser: Option<RawLookup>,
    Modified: Option<string>,
    Created: Option<string>,
    Author: Option<RawLookup>,
    Editor: Option<RawLookup>)

  datatype FileItem = FileItem(
    FileName: string,
    CheckedOutTo: Option<UserRef>,
    Modified: string,
    Created: string,
    CreatedBy: Option<string>,
    ModifiedBy: Option<string>)

  /** The per-row mapping; `None` when `Author` or `Editor` is missing. */
  function MapFile(raw: RawFile): (r: Option<FileItem>)
    ensures r.None? <==> raw.Author.None? || raw.Editor.None?
    ensures r.Some? ==> r.value.FileName == OrEmpty(raw.FileLeafRef)
    ensures r.Some? ==> (r.value.CheckedOutTo.Some? <==> raw.CheckoutUser.Some?)
    ensures r.Some? && raw.CheckoutUser.Some? ==>
      r.value.CheckedOutTo.value == UserRef(raw.CheckoutUser.value.Id, raw.CheckoutUser.value.Title)
    ensures r.Some? ==> r.value.Modified == OrEmpty(raw.Modified)
    ensures r.Some? ==> r.value.Created == OrEmpty(raw.Created)
    ensures r.Some? ==> r.value.CreatedBy == raw.Author.value.Title && r.value.ModifiedBy == raw.Editor.value.Title
  {
    match (raw.Author, raw.Editor)
    case (Some(author), Some(editor)) =>
      Some(FileItem(
        OrEmpty(raw.FileLeafRef),
        match raw.CheckoutUser
          case None => None
          case Some(u) => Some(UserRefOf(u)),
        OrEmpty(raw.Modified),
        OrEmpty(raw.Created),
        author.Title,
        editor.Title))
    case _ => None
  }

  /** The fetch: every row mapped, or no items when the request or any row failed. */
  function LoadFiles(data: Option<seq<RawFile>>): (items: seq<FileItem>)
    ensures data.None? ==> items == []
    ensures data.Some? && (exists i :: 0 <= i < |data.value| && (data.value[i].Author.None? || data.value[i].Editor.None?)) ==>
      items == []
    ensures data.Some? && (forall i :: 0 <= i < |data.value| ==> data.value[i].Author.Some? && data.value[i].Editor.Some?) ==>
      |items| == |data.value| && forall i :: 0 <= i < |items| ==> Some(items[i]) == MapFile(data.value[i])
  {
    LoadOrEmpty(data, MapFile)
  }

  /** One file without an author empties the whole tab, whatever the other rows hold. */
  lemma MissingAuthorEmptiesTab(rows: seq<RawFile>, k: int)
    requires 0 <= k < |rows| && rows[k].Author.None?
    ensures LoadFiles(Some(rows)) == []
  {
    assert MapFile(rows[k]).None?;
  }

  /** The Checked Out To cell: the user's title, or `''`. */
  function CheckedOutCell(f: FileItem): (cell: Option<string>)
    ensures f.CheckedOutTo.None? ==> cell == Some("")
    ensures f.CheckedOutTo.Some? ==> cell == f.CheckedOutTo.value.Title
  {
    match f.CheckedOutTo
    case None => Some("")
    case Some(u) => u.Title
  }
}
