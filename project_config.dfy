/**
 * The web part's configuration: the SharePoint site and the table of list
 * tabs the sidebar shows, in order, with `map` over that table.
 */
module ProjectConfig {
  import opened JsValues

  /** One configured list: the tab id, its label, and an optional description and icon. */
  datatype ListEntry = ListEntry(id: string, name: string, description: Option<string>, icon: Option<string>)

  const SiteUrl: string := "https://pplutech.sharepoint.com/sites/IMI-STI"

  /** The tab table, in sidebar order. */
  const Lists: seq<ListEntry> := [
    ListEntry("projects", "Projects", Some("List of available projects"), Some("FabricFolder")),
    ListEntry("documents", "Documents", Some("List of available documents"), Some("Document")),
    ListEntry("transmittals", "Transmittals", Some("List of available transmittals"), Some("Send")),
    ListEntry("distributionLists", "Distribution Lists", Some("List of available distribution lists"), Some("People")),
    ListEntry("documentHistory", "Document History", Some("List of document history"), Some("History")),
    ListEntry("alerts", "Alerts", Some("List of available alerts"), Some("Ringer")),
    ListEntry("files", "Files", Some("Document storage"), Some("OpenFile"))
  ]

  /** `lists.map(fn)` over any list of entries: one result per entry, in order. */
  function MapEntries<T>(entries: seq<ListEntry>, fn: ListEntry -> T): (r: seq<T>)
    ensures |r| == |entries|
    ensures forall i :: 0 <= i < |entries| ==> r[i] == fn(entries[i])
  {
    if entries == [] then [] else [fn(entries[0])] + MapEntries(entries[1..], fn)
  }

  /** `projectConfig.map(fn)`. */
  function Map<T>(fn: ListEntry -> T): (r: seq<T>)
    ensures |r| == |Lists|
    ensures forall i :: 0 <= i < |Lists| ==> r[i] == fn(Lists[i])
  {
    MapEntries(Lists, fn)
  }

  /** The configured tab ids, in order. */
  function Ids(): (ids: seq<string>)
    ensures |ids| == |Lists|
    ensures forall i :: 0 <= i < |Lists| ==> ids[i] == Lists[i].id
  {
    Map((l: ListEntry) => l.id)
  }

  /** The configured ids, written out: seven tabs, `projects` first. */
  lemma IdsAre()
    ensures Ids() == ["projects", "documents", "transmittals", "distributionLists", "documentHistory", "alerts", "files"]
  {
    var ids := Ids();
    assert ids == ["projects", "documents", "transmittals", "distributionLists", "documentHistory", "alerts", "files"];
  }

  /** No two tabs share an id. */
  lemma IdsDistinct()
    ensures forall i, j :: 0 <= i < j < |Ids()| ==> Ids()[i] != Ids()[j]
  {
    IdsAre();
  }
}
