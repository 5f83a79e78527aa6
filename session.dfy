/**
 * The per-window `adsidebar` record: the session state machine, the queue of
 * blocked requests, the armed node, the `document.write` buffer and the flags
 * the node queue and the sidebar share.
 */
module Session {
  import opened Dom
  import opened Ads

  // adsidebar.state
  const StateInit := 0
  const StateWindowLoad := 1
  const StateProcessNodesStart := 2
  const StateProcessNodesComplete := 3
  const StateAdLoadStart := 4
  const StateAdLoadComplete := 5
  const StateDone := 6

  class Session {
    const page: Page
    const ads: AdManager
    var state: nat
    /** Blocked requests waiting for the window to load, oldest first. */
    var nodeQueue: seq<NodeInfo>
    /** Every request ever queued, and those taken off the queue, in order. */
    ghost var arrived: seq<NodeInfo>
    ghost var admitted: seq<NodeInfo>
    /** The wrapper each admitted entry was placed in, in admission order. */
    ghost var placed: seq<NodeId>
    /** The node whose load and error events advance the queue. */
    var lastScriptNode: Option<NodeId>
    /** The nodes carrying the queue's load and error listeners. */
    var armed: set<NodeId>
    var scriptErrorFlag: bool
    var scriptErrorHandled: bool
    var refreshgpt: bool
    var runlocalscripts: bool
    var overridejqueryready: bool
    var documentWriteString: string
    var currentScriptDiv: Option<NodeId>
    var numDocWrites: nat
    var sidebarDisplayed: bool
    /** Whether an auto-hide timer has been set and has not fired. */
    var hideTimerArmed: bool
    /** Whether the `document.write` and jQuery-ready message listeners are attached. */
    var docWriteListening: bool
    var jqueryListening: bool

    ghost predicate Valid()
      reads this, ads, page
    {
      ads.page == page && ads.Valid() && page.Valid() &&
      state <= StateDone &&
      arrived == admitted + nodeQueue && |placed| == |admitted| &&
      armed == (if lastScriptNode.Some? then {lastScriptNode.value} else {}) &&
      (lastScriptNode.Some? ==> lastScriptNode.value in page.name) &&
      (currentScriptDiv.Some? ==> currentScriptDiv.value in page.name) &&
      (hideTimerArmed ==> state >= StateWindowLoad) &&
      ((state >= StateProcessNodesStart || lastScriptNode.Some? || docWriteListening || jqueryListening)
         ==> ads.container.Some?)
    }

    /** The record windowInit maps the top window to, with the ads module initialised. */
    constructor (page: Page)
      requires page.Valid()
      ensures Valid() && this.page == page
      ensures state == StateInit && nodeQueue == [] && arrived == [] && lastScriptNode == None
      ensures !scriptErrorFlag && !scriptErrorHandled && !refreshgpt && !runlocalscripts && !overridejqueryready
      ensures documentWriteString == "" && currentScriptDiv == None && numDocWrites == 0
      ensures !sidebarDisplayed && !hideTimerArmed && !docWriteListening && !jqueryListening
      ensures fresh(ads) && ads.state == AdsStateInit && ads.numAds == 0
    {
      this.page := page;
      ads := new AdManager(page);
      state := StateInit;
      nodeQueue := [];
      arrived, admitted, placed := [], [], [];
      lastScriptNode := None;
      armed := {};
      scriptErrorFlag, scriptErrorHandled := false, false;
      refreshgpt, runlocalscripts, overridejqueryready := false, false, false;
      documentWriteString := "";
      currentScriptDiv := None;
      numDocWrites := 0;
      sidebarDisplayed, hideTimerArmed := false, false;
      docWriteListening, jqueryListening := false, false;
    }

    /** At most one node is armed at any time. */
    lemma SingleArmed()
      requires Valid()
      ensures |armed| <= 1
      ensures forall n :: n in armed <==> lastScriptNode == Some(n)
    {
    }
  }
}
