/**
 * The web part's shell component: which tab is selected, whether the sidebar
 * is open, and whether the window is narrow enough to count as mobile. The
 * sidebar, the overlay and the menu toggle are shown from those three fields.
 */
module Shell {
  import ProjectConfig

  /** Widths below this many pixels are mobile. */
  const MobileBreakpoint: int := 768

  /** `checkIsMobile` for a given `window.innerWidth`. */
  predicate IsMobileWidth(width: int) {
    width < MobileBreakpoint
  }

  datatype ShellState = ShellState(selectedTab: string, isSidebarOpen: bool, isMobile: bool)

  /** The constructor's state for the window width at mount time. */
  function Initial(width: int): ShellState {
    ShellState("projects", false, IsMobileWidth(width))
  }

  /** What the user or the window can do; a resize is the debounced callback, taken as one step. */
  datatype Event = TabChange(tabId: string) | Toggle | Close | Resize(width: int)

  /** The state after one event handler has run. */
  function Next(s: ShellState, e: Event): ShellState {
    match e
    case TabChange(id) => s.(selectedTab := id, isSidebarOpen := if s.isMobile then false else s.isSidebarOpen)
    case Toggle => s.(isSidebarOpen := !s.isSidebarOpen)
    case Close => s.(isSidebarOpen := false)
    case Resize(w) =>
      var mobile := IsMobileWidth(w);
      s.(isMobile := mobile, isSidebarOpen := if !mobile && s.isSidebarOpen then false else s.isSidebarOpen)
  }

  /** The sidebar's `isVisible`. */
  predicate SidebarVisible(s: ShellState) {
    !s.isMobile || s.isSidebarOpen
  }

  /** The dimming overlay behind an open mobile sidebar. */
  predicate OverlayVisible(s: ShellState) {
    s.isMobile && s.isSidebarOpen
  }

  /** The menu toggle button. */
  predicate ToggleVisible(s: ShellState) {
    s.isMobile
  }

  /** The main area's content for a tab id. */
  datatype View =
    | ProjectsView | DocumentsView | TransmittalsView | DistributionListsView
    | DocumentHistoryView | AlertsView | FilesView
    | Placeholder  // "Seleziona una tab"

  function RenderTabContent(tab: string): View {
    match tab
    case "projects" => ProjectsView
    case "documents" => DocumentsView
    case "transmittals" => TransmittalsView
    case "distributionLists" => DistributionListsView
    case "documentHistory" => DocumentHistoryView
    case "alerts" => AlertsView
    case "files" => FilesView
    case _ => Placeholder
  }

  /** The tab id a view is rendered for; the placeholder has none. */
  function TabOf(v: View): string {
    match v
    case ProjectsView => "projects"
    case DocumentsView => "documents"
    case TransmittalsView => "transmittals"
    case DistributionListsView => "distributionLists"
    case DocumentHistoryView => "documentHistory"
    case AlertsView => "alerts"
    case FilesView => "files"
    case Placeholder => ""
  }

  /**
   * Each configured id dispatches to its own view (the view gives the id back),
   * and every other id gets the placeholder.
   */
  lemma DispatchMatchesConfig(tab: string)
    ensures RenderTabContent(tab).Placeholder? <==> tab !in ProjectConfig.Ids()
    ensures !RenderTabContent(tab).Placeholder? ==> TabOf(RenderTabContent(tab)) == tab
  {
    ProjectConfig.IdsAre();
    DispatchByName(tab);
  }

  /** The dispatch over the seven tab ids, written out. */
  lemma DispatchByName(tab: string)
    ensures RenderTabContent(tab).Placeholder? <==>
      tab !in ["projects", "documents", "transmittals", "distributionLists", "documentHistory", "alerts", "files"]
    ensures !RenderTabContent(tab).Placeholder? ==> TabOf(RenderTabContent(tab)) == tab
  {
  }

  /** The events the rendered page offers in state `s`. */
  predicate Offered(s: ShellState, e: Event) {
    match e
    case TabChange(id) => SidebarVisible(s) && id in ProjectConfig.Ids()  // a sidebar item
    case Toggle => ToggleVisible(s)                                        // the menu button
    case Close => OverlayVisible(s)                                        // a click on the overlay
    case Resize(_) => true
  }

  /** What holds in every state the page can reach: a configured tab, and no open sidebar on desktop. */
  predicate Consistent(s: ShellState) {
    && s.selectedTab in ProjectConfig.Ids()
    && (!s.isMobile ==> !s.isSidebarOpen)
  }

  /** `events` can be played from `s`, each one offered when it happens. */
  predicate Playable(s: ShellState, events: seq<Event>)
    decreases |events|
  {
    events == [] || (Offered(s, events[0]) && Playable(Next(s, events[0]), events[1..]))
  }

  function Run(s: ShellState, events: seq<Event>): ShellState
    decreases |events|
  {
    if events == [] then s else Run(Next(s, events[0]), events[1..])
  }

  /** Every handler keeps the page consistent. */
  lemma NextKeepsConsistent(s: ShellState, e: Event)
    requires Consistent(s) && Offered(s, e)
    ensures Consistent(Next(s, e))
  {
  }

  /** The page starts consistent and stays so, whatever it is offered to do. */
  lemma {:induction false} RunKeepsConsistent(s: ShellState, events: seq<Event>)
    requires Consistent(s) && Playable(s, events)
    ensures Consistent(Run(s, events))
    decreases |events|
  {
    if events != [] {
      NextKeepsConsistent(s, events[0]);
      RunKeepsConsistent(Next(s, events[0]), events[1..]);
    }
  }

  /** So the main area never shows the placeholder, and a desktop page never holds an open mobile sidebar. */
  lemma ReachableStates(width: int, events: seq<Event>)
    requires Playable(Initial(width), events)
    ensures !RenderTabContent(Run(Initial(width), events).selectedTab).Placeholder?
    ensures !Run(Initial(width), events).isMobile ==> !Run(Initial(width), events).isSidebarOpen
  {
    ProjectConfig.IdsAre();
    assert Consistent(Initial(width));
    RunKeepsConsistent(Initial(width), events);
    DispatchMatchesConfig(Run(Initial(width), events).selectedTab);
  }

  /** On mobile, picking a tab closes the sidebar; on desktop it leaves the sidebar as it was. */
  lemma TabChangeOnSidebar(s: ShellState, id: string)
    ensures Next(s, TabChange(id)).selectedTab == id
    ensures s.isMobile ==> !Next(s, TabChange(id)).isSidebarOpen
    ensures !s.isMobile ==> Next(s, TabChange(id)).isSidebarOpen == s.isSidebarOpen
    ensures Next(s, TabChange(id)).isMobile == s.isMobile
  {
  }

  /** Toggling twice restores the sidebar; closing is idempotent; neither touches the tab. */
  lemma ToggleAndClose(s: ShellState)
    ensures Next(Next(s, Toggle), Toggle) == s
    ensures Next(Next(s, Close), Close) == Next(s, Close)
    ensures Next(s, Toggle).selectedTab == s.selectedTab && Next(s, Close).selectedTab == s.selectedTab
  {
  }

  /** A resize sets `isMobile` from the new width and closes an open sidebar exactly when the width is desktop. */
  lemma ResizeEffect(s: ShellState, w: int)
    ensures Next(s, Resize(w)).isMobile <==> w < 768
    ensures Next(s, Resize(w)).isSidebarOpen <==> s.isSidebarOpen && w < 768
    ensures Next(s, Resize(w)).selectedTab == s.selectedTab
  {
  }

  /** The component object: its three state fields and the handlers that update them. */
  class ShellComponent {
    var selectedTab: string
    var isSidebarOpen: bool
    var isMobile: bool

    function State(): ShellState
      reads this
    {
      ShellState(selectedTab, isSidebarOpen, isMobile)
    }

    constructor(innerWidth: int)
      ensures State() == Initial(innerWidth)
    {
      selectedTab := "projects";
      isSidebarOpen := false;
      isMobile := innerWidth < MobileBreakpoint;
    }

    method HandleTabChange(tabId: string)
      modifies this
      ensures State() == Next(old(State()), TabChange(tabId))
    {
      selectedTab := tabId;
      if isMobile {
        isSidebarOpen := false;
      }
    }

    method ToggleSidebar()
      modifies this
      ensures State() == Next(old(State()), Toggle)
    {
      isSidebarOpen := !isSidebarOpen;
    }

    method CloseSidebar()
      modifies this
      ensures State() == Next(old(State()), Close)
    {
      isSidebarOpen := false;
    }

    /** The debounced resize callback, for the width it reads. */
    method HandleResize(innerWidth: int)
      modifies this
      ensures State() == Next(old(State()), Resize(innerWidth))
    {
      var mobile := innerWidth < MobileBreakpoint;
      isMobile := mobile;
      if !mobile && isSidebarOpen {
        isSidebarOpen := false;
      }
    }

    /** The main area for the current tab. */
    function Content(): (v: View)
      reads this
      ensures v.Placeholder? <==> selectedTab !in ProjectConfig.Ids()
    {
      DispatchMatchesConfig(selectedTab);
      RenderTabContent(selectedTab)
    }
  }
}
