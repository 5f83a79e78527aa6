/**
 * The `adsidebar` module: the per-top-window session map, the window
 * lifecycle handlers, the routing of blocked-request notifications by
 * session state, the completion steps that show the sidebar, and the
 * toggle and data requests of the popup.
 */
module AdSidebar {
  import opened Dom
  import opened Utils
  import opened Ads
  import opened Session
  import NodeQueue

  /** A window object, as the key of the session map. */
  type WindowKey = nat

  /**
   * The preferences the background page sends. A preference not received yet
   * is `null`, which reads as disabled and, times 1000, as 0.
   */
  datatype Prefs = Prefs(enabled: bool, autohide: int)

  /** The url-specific options of the supplement subscription. */
  datatype UrlInfo = UrlInfo(refreshgpt: bool, runlocalscripts: bool, overridejqueryready: bool)

  /** The answer to the popup's data request. */
  datatype Data = Data(sidebarEnabled: bool, sidebarDisplayed: bool)

  /** The type-to-tag switch of processPolicyResponse: the name createElement needs. */
  function TagFor(kind: string): string
  {
    if kind == "SUBDOCUMENT" then "iframe"
    else if kind == "IMAGE" then "img"
    else kind
  }

  /**
   * Only SUBDOCUMENT and IMAGE are renamed, to the tags of the elements that
   * load them; every other type passes through, and a tag maps to itself.
   */
  lemma TagForSpec(kind: string)
    ensures kind == "SUBDOCUMENT" ==> Upper(TagFor(kind)) == "IFRAME"
    ensures kind == "IMAGE" ==> Upper(TagFor(kind)) == "IMG"
    ensures kind != "SUBDOCUMENT" && kind != "IMAGE" ==> TagFor(kind) == kind
    ensures TagFor(TagFor(kind)) == TagFor(kind)
  {
    UpperTags();
  }

  // ---------------------------------------------------------------------
  // Handlers that run on a session the callback captured

  /** The reply to the url-info request updates the session it was sent for. */
  method UrlInfoReply(s: Session, response: Option<UrlInfo>)
    modifies s`refreshgpt, s`runlocalscripts, s`overridejqueryready
    ensures response.Some? ==>
      && s.refreshgpt == response.value.refreshgpt
      && s.runlocalscripts == response.value.runlocalscripts
      && s.overridejqueryready == response.value.overridejqueryready
    ensures response.None? ==>
      && s.refreshgpt == old(s.refreshgpt) && s.runlocalscripts == old(s.runlocalscripts)
      && s.overridejqueryready == old(s.overridejqueryready)
  {
    if response.Some? {
      s.refreshgpt := response.value.refreshgpt;
      s.runlocalscripts := response.value.runlocalscripts;
      s.overridejqueryready := response.value.overridejqueryready;
    }
  }

  /**
   * The reply to "adsidebar-allow-web-requests": the ads module's windowLoad
   * creates the container and asks for the hiding selectors.
   */
  method AllowReply(s: Session)
    requires s.Valid()
    modifies s.ads`state, s.ads`container, s.ads`dynamicObserving, s.page
    ensures s.Valid()
    ensures s.ads.state == AdsStateWindowLoaded && s.ads.container.Some?
    ensures s.page.Kids(s.ads.container.value) == []
  {
    s.ads.WindowLoad();
  }

  /**
   * The reply to "get-selectors", then the callback of Ads.windowLoad: move the
   * hidden elements, enter PROCESS_NODES_START, override `document.write`,
   * and drain the queue when it holds anything.
   */
  method SelectorsReply(s: Session, matched: seq<NodeId>, order: seq<NodeId>)
    requires s.Valid() && s.ads.container.Some?
    modifies s`nodeQueue, s`admitted, s`placed, s`lastScriptNode, s`armed, s`currentScriptDiv, s`state,
      s`scriptErrorHandled, s`jqueryListening, s`docWriteListening
    modifies s.ads`timeoutId, s.ads`pendingTicks, s.ads`nextTimer, s.ads`state, s.ads`numHiddenElements, s.page
    ensures s.Valid() && s.docWriteListening
    ensures var k := NodeQueue.Drained(old(s.nodeQueue));
      s.nodeQueue == old(s.nodeQueue)[k..] && s.admitted == old(s.admitted) + old(s.nodeQueue)[..k]
    ensures old(s.nodeQueue) == [] ==> s.state == StateProcessNodesStart
    ensures old(s.nodeQueue) != [] && NodeQueue.RunsDry(old(s.nodeQueue)) ==> s.state == StateAdLoadStart
    ensures !NodeQueue.RunsDry(old(s.nodeQueue)) ==> s.state == StateProcessNodesStart && s.lastScriptNode.Some?
  {
    var moved := MoveHidden(s, matched);
    StartReplay(s, order);
  }

  /** Enter PROCESS_NODES_START, override `document.write`, and drain the queue when it holds anything. */
  method StartReplay(s: Session, order: seq<NodeId>)
    requires s.Valid() && s.ads.container.Some?
    modifies s`nodeQueue, s`admitted, s`placed, s`lastScriptNode, s`armed, s`currentScriptDiv, s`state,
      s`scriptErrorHandled, s`jqueryListening, s`docWriteListening
    modifies s.ads`timeoutId, s.ads`pendingTicks, s.ads`nextTimer, s.ads`state, s.page
    ensures s.Valid() && s.docWriteListening
    ensures var k := NodeQueue.Drained(old(s.nodeQueue));
      s.nodeQueue == old(s.nodeQueue)[k..] && s.admitted == old(s.admitted) + old(s.nodeQueue)[..k]
    ensures old(s.nodeQueue) == [] ==> s.state == StateProcessNodesStart
    ensures old(s.nodeQueue) != [] && NodeQueue.RunsDry(old(s.nodeQueue)) ==> s.state == StateAdLoadStart
    ensures !NodeQueue.RunsDry(old(s.nodeQueue)) ==> s.state == StateProcessNodesStart && s.lastScriptNode.Some?
  {
    s.state := StateProcessNodesStart;
    NodeQueue.WindowLoad(s);
    if |s.nodeQueue| > 0 {
      NodeQueue.ProcessNodeQueue(s, order);
    }
  }

  /**
   * moveHiddenElements on the session's ads object: the topmost matched
   * elements outside the container go, in order, into fresh wrappers appended
   * to the container, and the session stays consistent.
   */
  method MoveHidden(s: Session, matched: seq<NodeId>) returns (moved: seq<NodeId>)
    requires s.Valid() && s.ads.container.Some?
    modifies s.ads`timeoutId, s.ads`pendingTicks, s.ads`nextTimer, s.ads`state, s.ads`numHiddenElements, s.page
    ensures s.Valid()
    ensures var candidates := OutsideContainer(old(s.page.name), old(s.page.parent), old(s.page.nextId),
                                              s.ads.container.value, matched);
      moved == TopmostPrefix(candidates, |candidates|, old(s.page.parent), old(s.page.nextId))
    ensures forall x :: x in moved ==> x in matched && !old(s.page.Contains(s.ads.container.value, x))
    ensures s.page.Kids(s.ads.container.value) == old(s.page.Kids(s.ads.container.value)) + Span(old(s.page.nextId), |moved|)
    ensures ParentsIn(s.page.parent, moved, old(s.page.nextId), |moved|)
    ensures WrappersHold(s.page.kids, moved, old(s.page.nextId), |moved|)
  {
    moved := s.ads.MoveHiddenElements(matched);
  }

  /** showSidebar: the sidebar slides in. */
  method ShowSidebar(s: Session)
    modifies s`sidebarDisplayed
    ensures s.sidebarDisplayed
  {
    s.sidebarDisplayed := true;
  }

  /**
   * hideSidebar: the sidebar slides out; an armed auto-hide timer is left as it
   * is. The sidebar div exists only from WINDOW_LOAD on; before that the style
   * write throws on the missing div, and the flag is never cleared.
   */
  method HideSidebar(s: Session)
    modifies s`sidebarDisplayed
    ensures s.state >= StateWindowLoad ==> !s.sidebarDisplayed
    ensures s.state < StateWindowLoad ==> s.sidebarDisplayed == old(s.sidebarDisplayed)
  {
    if s.state < StateWindowLoad {
      return;
    }
    s.sidebarDisplayed := false;
  }

  /**
   * adLoadingComplete of the sidebar: pass through ADLOAD_COMPLETE, show the
   * sidebar, (re)start the auto-hide timer when `autohide * 1000` is not 0,
   * and end in DONE.
   */
  method AdLoadingComplete(s: Session, prefs: Prefs)
    requires s.Valid() && s.ads.container.Some?
    modifies s`state, s`sidebarDisplayed, s`hideTimerArmed
    ensures s.Valid()
    ensures s.state == StateDone && s.sidebarDisplayed
    ensures s.hideTimerArmed == (prefs.autohide * 1000 != 0 || old(s.hideTimerArmed))
  {
    s.state := StateAdLoadComplete;
    ShowSidebar(s);
    var timeoutMsec := prefs.autohide * 1000;
    if timeoutMsec != 0 {
      s.hideTimerArmed := true;
    }
    s.state := StateDone;
  }

  /** The auto-hide timer fires: the sidebar hides. */
  method AutoHideFired(s: Session)
    requires s.Valid() && s.hideTimerArmed
    modifies s`sidebarDisplayed, s`hideTimerArmed
    ensures s.Valid()
    ensures !s.hideTimerArmed && !s.sidebarDisplayed
  {
    s.hideTimerArmed := false;
    HideSidebar(s);
  }

  /**
   * A tick of the ads monitor, with the completion notification delivered to
   * the sidebar: the sidebar shows exactly when the ad count rose.
   */
  method MonitorTick(s: Session, prefs: Prefs, t: nat, pendingRecords: bool, lay: Layout)
    returns (notify: bool)
    requires s.Valid() && t in s.ads.pendingTicks
    modifies s`state, s`sidebarDisplayed, s`hideTimerArmed
    modifies s.ads`state, s.ads`pendingTicks, s.ads`styled, s.ads`hidden, s.ads`numEmptyAdDivs,
      s.ads`prevLastAdDiv, s.ads`lastAdDiv, s.ads`numAds, s.ads`adInfoArray, s.ads`numNonEmptyAdDivs,
      s.ads`timeoutId, s.ads`nextTimer, s.ads`elapsedAdLoadTime, s.ads`probe, s.ads`dirty
    ensures s.Valid()
    ensures notify <==> s.ads.numAds > old(s.ads.numAds)
    ensures notify ==> s.state == StateDone && s.sidebarDisplayed
    ensures !notify ==> s.state == old(s.state) && s.sidebarDisplayed == old(s.sidebarDisplayed)
    ensures s.ads.numAds >= old(s.ads.numAds)
    ensures s.hideTimerArmed == (old(s.hideTimerArmed) || (notify && prefs.autohide * 1000 != 0))
    ensures unchanged(s`nodeQueue, s`arrived, s`admitted, s`placed, s`lastScriptNode, s`armed,
                      s`currentScriptDiv, s`documentWriteString, s`scriptErrorFlag, s`scriptErrorHandled)
  {
    var checked;
    checked, notify := s.ads.MonitorTick(t, pendingRecords, lay, s.scriptErrorFlag, s.refreshgpt);
    if notify {
      AdLoadingComplete(s, prefs);
    }
  }

  /**
   * A probe reply reaching the ads module, with the completion notification
   * delivered to the sidebar.
   */
  method ProbeReply(s: Session, prefs: Prefs, source: WindowId, readyState: string, width: Dim, height: Dim,
                    lay: Layout) returns (notify: bool)
    requires s.Valid()
    modifies s`state, s`sidebarDisplayed, s`hideTimerArmed
    modifies s.ads`state, s.ads`pendingTicks, s.ads`styled, s.ads`hidden, s.ads`numEmptyAdDivs,
      s.ads`prevLastAdDiv, s.ads`lastAdDiv, s.ads`numAds, s.ads`adInfoArray, s.ads`numNonEmptyAdDivs,
      s.ads`timeoutId, s.ads`nextTimer, s.ads`elapsedAdLoadTime, s.ads`probe, s.ads`iframeMap
    ensures s.Valid()
    ensures notify <==> s.ads.numAds > old(s.ads.numAds)
    ensures notify ==> s.state == StateDone && s.sidebarDisplayed
    ensures !notify ==> s.state == old(s.state) && s.sidebarDisplayed == old(s.sidebarDisplayed)
    ensures s.ads.numAds >= old(s.ads.numAds)
    ensures s.hideTimerArmed == (old(s.hideTimerArmed) || (notify && prefs.autohide * 1000 != 0))
    ensures unchanged(s`nodeQueue, s`arrived, s`admitted, s`placed, s`lastScriptNode, s`armed,
                      s`currentScriptDiv, s`documentWriteString, s`scriptErrorFlag, s`scriptErrorHandled)
  {
    notify := s.ads.ProbeReply(source, readyState, width, height, lay, s.scriptErrorFlag, s.refreshgpt);
    if notify {
      AdLoadingComplete(s, prefs);
    }
  }

  // ---------------------------------------------------------------------
  // Routing a blocked request

  /** Before the window loads, the request joins the tail of the queue. */
  method QueueRequest(s: Session, info: NodeInfo)
    requires s.Valid()
    modifies s`nodeQueue, s`arrived
    ensures s.Valid()
    ensures s.nodeQueue == old(s.nodeQueue) + [info] && s.arrived == old(s.arrived) + [info]
  {
    s.nodeQueue := s.nodeQueue + [info];
    s.arrived := s.arrived + [info];
  }

  /**
   * The state switch of processPolicyResponse: queue before WINDOW_LOAD,
   * relocate from ADLOAD_COMPLETE on, drop in between.
   */
  method RouteRequest(s: Session, info: NodeInfo, order: seq<NodeId>) returns (moved: Option<NodeId>)
    requires s.Valid()
    modifies s`nodeQueue, s`arrived
    modifies s.ads`timeoutId, s.ads`pendingTicks, s.ads`nextTimer, s.ads`state, s.page
    ensures s.Valid()
    ensures s.state == old(s.state) && s.admitted == old(s.admitted)
    ensures unchanged(s`state, s`admitted, s`placed, s`lastScriptNode, s`armed, s`currentScriptDiv,
                      s`documentWriteString, s`scriptErrorFlag, s`scriptErrorHandled, s`sidebarDisplayed,
                      s`hideTimerArmed)
    ensures old(s.state) < StateWindowLoad ==>
      && s.nodeQueue == old(s.nodeQueue) + [info] && s.arrived == old(s.arrived) + [info]
      && moved == None && unchanged(s.ads, s.page)
    ensures StateWindowLoad <= old(s.state) < StateAdLoadComplete ==>
      && s.nodeQueue == old(s.nodeQueue) && s.arrived == old(s.arrived)
      && moved == None && unchanged(s.ads, s.page)
    ensures StateAdLoadComplete <= old(s.state) ==>
      && s.nodeQueue == old(s.nodeQueue) && s.arrived == old(s.arrived)
      && moved == (if info.kind == "SCRIPT" || info.kind == "OTHER" then None
                   else DynamicTarget(old(s.page.View(order, s.ads.container)), info))
    ensures moved == None ==>
      && s.page.kids == old(s.page.kids) && s.page.parent == old(s.page.parent)
      && s.page.name == old(s.page.name) && s.ads.state == old(s.ads.state)
    ensures moved.Some? ==>
      && moved.value in old(s.page.name) && !old(s.page.Contains(s.ads.container.value, moved.value))
      && moved.value in s.page.parent && s.page.parent[moved.value] in s.page.Kids(s.ads.container.value)
      && s.ads.state == AdsStateAdsLoading
  {
    moved := None;
    if s.state >= StateWindowLoad {
      if s.state >= StateAdLoadComplete {
        moved := s.ads.InsertNewNodeDynamic(info, order);
      }
    } else {
      QueueRequest(s, info);
    }
  }

  // ---------------------------------------------------------------------
  // The content script of one frame

  /**
   * The module state of the content script running in `window`: the session
   * map, keyed by window, and the preferences. windowInit is only ever called
   * with the script's own window, so the map holds at most that window, and
   * only when it is the top window.
   */
  class ContentScript {
    const window: WindowKey
    /** `window.top`. */
    const top: WindowKey
    var sessions: map<WindowKey, Session>
    var prefs: Prefs

    /** The objects the map's session owns. */
    ghost function Footprint(): set<object>
      reads this
    {
      if window in sessions then {sessions[window], sessions[window].ads, sessions[window].page} else {}
    }

    ghost predicate Valid()
      reads this, Footprint()
    {
      (forall w | w in sessions :: w == window) &&
      (window in sessions ==> window == top && sessions[window].Valid())
    }

    /** The script's start-up state, before Adsidebar.init runs windowInit. */
    constructor (window: WindowKey, top: WindowKey)
      ensures Valid() && this.window == window && this.top == top
      ensures sessions == map[] && prefs == Prefs(false, 0)
    {
      this.window := window;
      this.top := top;
      sessions := map[];
      prefs := Prefs(false, 0);
    }

    /** Sessions exist only for the top window, and there is at most one. */
    lemma SessionOnlyForTop()
      requires Valid()
      ensures forall w | w in sessions :: w == top && w == window
      ensures |sessions.Keys| <= 1
      ensures top in sessions <==> window in sessions
    {
      if window in sessions {
        assert sessions.Keys == {window};
      } else {
        assert sessions.Keys == {};
      }
    }

    /**
     * windowInit: a frame that is not the top window is ignored, and so is a
     * window that already has a session; otherwise a fresh session in state
     * INIT, with an empty queue and a fresh ads object, is mapped to it.
     */
    method WindowInit(page: Page)
      requires Valid() && page.Valid()
      modifies this`sessions
      ensures Valid()
      ensures window != top || window in old(sessions) ==> sessions == old(sessions)
      ensures window == top && window !in old(sessions) ==>
        && sessions.Keys == {window} && fresh(sessions[window]) && sessions[window].page == page
        && sessions[window].state == StateInit && sessions[window].nodeQueue == []
        && !sessions[window].scriptErrorFlag && !sessions[window].sidebarDisplayed
      ensures DataReply() == old(DataReply())
    {
      if window != top {
        return;
      }
      if window in sessions {
        return;
      }
      var s := new Session(page);
      sessions := sessions[window := s];
    }

    /** The preference update message, and a non-null reply to the preference request. */
    method UpdatePrefs(response: Option<Prefs>)
      modifies this`prefs
      ensures prefs == if response.Some? then response.value else old(prefs)
    {
      if response.Some? {
        prefs := response.value;
      }
    }

    /** windowLoad: the session, if any, enters WINDOW_LOAD and stops queueing requests. */
    method WindowLoad()
      requires Valid()
      modifies Footprint()
      ensures Valid() && sessions == old(sessions)
      ensures window in sessions ==> sessions[window].state == StateWindowLoad
      ensures window in sessions ==> unchanged(sessions[window].ads, sessions[window].page)
      ensures window in sessions ==>
        var s: Session := sessions[window];
        unchanged(s`nodeQueue, s`arrived, s`admitted, s`placed, s`lastScriptNode, s`armed,
                  s`currentScriptDiv, s`documentWriteString, s`scriptErrorFlag, s`scriptErrorHandled,
                  s`sidebarDisplayed, s`hideTimerArmed)
      ensures window !in sessions ==> unchanged(this)
      ensures DataReply() == old(DataReply())
    {
      if window in sessions {
        var s := sessions[window];
        s.state := StateWindowLoad;
      }
    }

    /** windowUnload: the ads module stops watching, and the window's entry is deleted. */
    method WindowUnload()
      requires Valid()
      modifies this`sessions, Footprint()
      ensures Valid()
      ensures sessions == old(sessions) - {window}
      ensures window in old(sessions) ==> !old(sessions)[window].ads.dynamicObserving
      ensures DataReply() == Data(false, false)
    {
      if window in sessions {
        sessions[window].ads.WindowUnload();
      }
      sessions := sessions - {window};
    }

    /** windowError: the session, if any, records that a script failed. */
    method WindowError()
      requires Valid()
      modifies Footprint()
      ensures Valid() && sessions == old(sessions)
      ensures window in sessions ==> sessions[window].scriptErrorFlag
      ensures window in sessions ==>
        var s: Session := sessions[window];
        unchanged(s`state, s`nodeQueue, s`arrived, s`admitted, s`placed, s`lastScriptNode,
                  s`armed, s`currentScriptDiv, s`documentWriteString, s`scriptErrorHandled,
                  s`sidebarDisplayed, s`hideTimerArmed)
      ensures window in sessions ==> unchanged(sessions[window].ads, sessions[window].page)
      ensures DataReply() == old(DataReply())
    {
      if window in sessions {
        var s := sessions[window];
        s.scriptErrorFlag := true;
      }
    }

    /** The answer to the popup's data request, for the top window's session. */
    function DataReply(): Data
      requires Valid()
      reads this, Footprint()
    {
      if top in sessions then
        var s := sessions[top];
        Data(s.ads.numAds != 0, s.sidebarDisplayed)
      else Data(false, false)
    }

    /**
     * A monitor timer of the top window's session fires. The data request
     * never goes back from reporting the sidebar enabled, and a tick that
     * raises the ad count makes it report the sidebar enabled and shown.
     */
    method TopMonitorTick(t: nat, pendingRecords: bool, lay: Layout) returns (notify: bool)
      requires Valid() && top in sessions && t in sessions[top].ads.pendingTicks
      modifies Footprint()
      ensures Valid() && sessions == old(sessions)
      ensures old(DataReply().sidebarEnabled) ==> DataReply().sidebarEnabled
      ensures notify ==> DataReply() == Data(true, true)
      ensures !notify ==> DataReply() == old(DataReply())
      ensures top in sessions ==>
        var s: Session := sessions[top];
        unchanged(s`nodeQueue, s`arrived, s`admitted, s`placed, s`lastScriptNode, s`armed,
                  s`currentScriptDiv, s`documentWriteString, s`scriptErrorFlag, s`scriptErrorHandled)
      ensures notify ==> sessions[top].state == StateDone
      ensures !notify ==> sessions[top].state == old(sessions[top].state)
      ensures sessions[top].hideTimerArmed == (old(sessions[top].hideTimerArmed) || (notify && prefs.autohide * 1000 != 0))
    {
      var s := sessions[top];
      notify := MonitorTick(s, prefs, t, pendingRecords, lay);
    }

    /** A probe reply reaches the top window's session; the data request changes as for a tick. */
    method TopProbeReply(source: WindowId, readyState: string, width: Dim, height: Dim, lay: Layout)
      returns (notify: bool)
      requires Valid() && top in sessions
      modifies Footprint()
      ensures Valid() && sessions == old(sessions)
      ensures old(DataReply().sidebarEnabled) ==> DataReply().sidebarEnabled
      ensures notify ==> DataReply() == Data(true, true)
      ensures !notify ==> DataReply() == old(DataReply())
      ensures top in sessions ==>
        var s: Session := sessions[top];
        unchanged(s`nodeQueue, s`arrived, s`admitted, s`placed, s`lastScriptNode, s`armed,
                  s`currentScriptDiv, s`documentWriteString, s`scriptErrorFlag, s`scriptErrorHandled)
      ensures notify ==> sessions[top].state == StateDone
      ensures !notify ==> sessions[top].state == old(sessions[top].state)
      ensures sessions[top].hideTimerArmed == (old(sessions[top].hideTimerArmed) || (notify && prefs.autohide * 1000 != 0))
    {
      var s := sessions[top];
      notify := ProbeReply(s, prefs, source, readyState, width, height, lay);
    }

    /**
     * The toggle message: the top window's sidebar hides when shown and shows
     * when hidden. Before WINDOW_LOAD hiding throws on the missing sidebar div,
     * so the flag then only ever goes from hidden to shown.
     */
    method Toggle()
      requires Valid()
      modifies Footprint()
      ensures Valid() && sessions == old(sessions)
      ensures top in sessions ==>
        DataReply().sidebarDisplayed == (old(sessions[top].state) < StateWindowLoad || !old(DataReply().sidebarDisplayed))
      ensures top !in sessions ==> DataReply() == old(DataReply())
      ensures DataReply().sidebarEnabled == old(DataReply().sidebarEnabled)
      ensures top in sessions ==>
        var s: Session := sessions[top];
        unchanged(s`state, s`nodeQueue, s`arrived, s`admitted, s`placed, s`lastScriptNode,
                  s`armed, s`currentScriptDiv, s`documentWriteString, s`scriptErrorFlag, s`scriptErrorHandled,
                  s`hideTimerArmed)
      ensures top in sessions ==> unchanged(sessions[top].ads, sessions[top].page)
    {
      if top in sessions {
        var s := sessions[top];
        if s.sidebarDisplayed {
          HideSidebar(s);
        } else {
          ShowSidebar(s);
        }
      }
    }

    /**
     * processPolicyResponse: nothing happens while the sidebar is disabled or
     * the top window has no session; otherwise the request, with its tag, is
     * routed by the session's state.
     */
    method ProcessPolicyResponse(kind: string, url: string, order: seq<NodeId>) returns (moved: Option<NodeId>)
      requires Valid()
      modifies Footprint()
      ensures Valid() && sessions == old(sessions)
      ensures !prefs.enabled || top !in sessions ==> moved == None && unchanged(Footprint())
      ensures DataReply() == old(DataReply())
      ensures prefs.enabled && top in sessions ==>
        var s := sessions[top];
        var info := NodeInfo(kind, TagFor(kind), url);
        && s.state == old(s.state)
        && (old(s.state) < StateWindowLoad ==> s.nodeQueue == old(s.nodeQueue) + [info] && moved == None)
        && (StateWindowLoad <= old(s.state) < StateAdLoadComplete ==>
              s.nodeQueue == old(s.nodeQueue) && moved == None && unchanged(s.ads, s.page))
        && (StateAdLoadComplete <= old(s.state) ==>
              && s.nodeQueue == old(s.nodeQueue)
              && moved == (if kind == "SCRIPT" || kind == "OTHER" then None
                           else DynamicTarget(old(s.page.View(order, s.ads.container)), info)))
        && (moved == None ==>
              && s.page.kids == old(s.page.kids) && s.page.parent == old(s.page.parent)
              && s.page.name == old(s.page.name) && s.ads.state == old(s.ads.state))
        && (moved.Some? ==>
              && moved.value in s.page.parent && s.page.parent[moved.value] in s.page.Kids(s.ads.container.value)
              && s.ads.state == AdsStateAdsLoading)
      ensures top in sessions ==>
        var s: Session := sessions[top];
        unchanged(s`admitted, s`placed, s`lastScriptNode, s`armed, s`currentScriptDiv, s`documentWriteString,
                  s`scriptErrorFlag, s`scriptErrorHandled, s`sidebarDisplayed, s`hideTimerArmed)
    {
      moved := None;
      if !prefs.enabled {
        return;
      }
      if top !in sessions {
        return;
      }
      var s := sessions[top];
      var tagType := TagFor(kind);
      moved := RouteRequest(s, NodeInfo(kind, tagType, url), order);
    }
  }
}
