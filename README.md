# adsidebar content script, modelled in Dafny

adsidebar is a browser extension. Its content script does not hide the ads an
ad blocker would hide. It moves them into a sidebar beside the page. Before
the window loads, every request the blocker stops is recorded in a queue.
Once the window has loaded, the queue is replayed one entry at a time into an
ad container div, each entry's element in a wrapper div of its own. A script
gets a fresh node. An iframe reuses the iframe `findNode` returns, or a fresh
one when there is none. The queue waits on scripts and iframes, and advances
at once past everything else. A once-a-second monitor then waits
for the relocated ads to finish loading:

- it defers while the container is still mutating;
- it probes the iframes for their readiness;
- it classifies each wrapper as an ad region or an empty one.

When loading completes with more ads than before, the sidebar is shown. Later
requests are relocated directly ("dynamic ads").

The model covers four source files:

- `ads.js`: the ad container and its readiness monitor.
- `nodeQueue.js`: the admission queue, the `document.write` bridge and the
  one-shot script-error handling.
- `adSidebar.js`: the per-top-window session map, the routing of blocked
  requests, the completion steps, and the toggle and data requests.
- `utils.js`: `findNode`.

The document is abstracted as data. Each node has:

- a tag name and a `src`;
- a parent map and ordered child lists. A child list holds text nodes as well
  as elements, as `childNodes` does, so a region holding only text counts as
  having children;
- fresh ids for created nodes.

The model has these layers:

- Layout measurements are a `Layout` value supplied with each check: offset
  sizes that may be `NaN`, the iframes' content windows, image counts and
  `innerText`.
- Document order is an `order` parameter.
- Timers, mutation observers and `postMessage` replies become methods, called
  one at a time as on the page's single event loop.
- A monitor timer is an id in `pendingTicks`. A tick requires its id to be
  pending.
- Callbacks between the modules become returned flags. For example, the Ads
  completion returns `notify`, and the AdSidebar layer then runs its own
  completion steps.
- The HTML parser behind `createContextualFragment` is an uninterpreted
  function `parse`.

Files:

- `dom.dfy`: the document model (`Page`) and its edits.
- `utils.dfy`: `findNode`.
- `ads.dfy`: `AdManager`, the region classifiers and the dynamic-ad lookup.
- `session.dfy`: the per-window `adsidebar` record.
- `nodequeue.dfy`: the queue.
- `adsidebar.dfy`: the content script's module state (`ContentScript`) and
  the session-level handlers.

In a few places the code does not do what the extension is meant to do. The
model follows the code:

- A region whose iframes never answered a probe is classified empty, as
  `checkEmptyIframe` skips iframes without a reply. The intended
  classification would treat such iframes as still pending
  (`Ads.SilentRegionIsEmpty`).
- The 300 ms probe timeout rearms the monitor and does not run the
  continuation with the replies received so far.
- The tick counter is reset to 0 on every completion, not only for newly
  discovered content.
- Teardown stops only the dynamic-ad observer (adSidebar.js:299-314,
  ads.js:110-123). The intended teardown would cancel every timer and
  subscription of the window. The monitor timer, a pending probe and the
  message listeners are left as they are.
- Ad-load monitoring starts at the first `insertNewNode` after the window
  has loaded (ads.js:1049-1053), not after the queue completes. Moving the
  hidden elements calls `insertNewNode` for each of them (ads.js:329-335,
  830-834) before the replay starts, so monitoring starts there when any
  hidden element is moved, and otherwise when the first queued entry is placed.

## Model

| member | source | states |
|---|---|---|
| Dom.Page.AppendChild | src/adsidebar/ads.js:1067-1077 | appending a node gives it its new parent and removes it from its old parent's children, keeping every other child list |
| Dom.Page.ViewSpec | src/adsidebar/utils.js:47 | every element of the document-order view carries the node's tag, src and whether the ad container contains it |
| Utils.FindNodeSpec | src/adsidebar/utils.js:40-65 | findNode is null exactly when no element has the tag, the src and lies outside the container; otherwise it is the first such element in document order |
| Utils.FindNodeUnfold | src/adsidebar/utils.js:54-62 | the search takes the first element when it qualifies, and otherwise continues with the rest |
| Utils.FindNodeNoTag | src/adsidebar/utils.js:47-51 | with no element of the tag, findNode returns null |
| Ads.AdDivsSpec | src/adsidebar/ads.js:572-622 | findAdDivs keeps exactly the wrappers whose first child passes the filters, each with a size that is not NaN on both axes and not at or below 15 on either axis (a NaN axis passes that test, as a comparison with NaN is false); there are no more entries than wrappers |
| Ads.NoneLoadedIff | src/adsidebar/ads.js:693-722 | the iframe scan finds nothing loaded iff no iframe has a reply that is not NaN on both axes and not at or below 15 on both (a NaN axis is never at or below 15, so NaN by 10 counts as loaded) |
| Ads.EmptyDivsSpec | src/adsidebar/ads.js:688-782 | findEmptyAdDivs returns exactly the regions where the iframe rule or the empty-div rule holds, never more than the regions found |
| Ads.SilentRegionIsEmpty | src/adsidebar/ads.js:698-727 | a region with iframes none of which has replied is empty |
| Ads.LastAdDivSpec | src/adsidebar/ads.js:665-686 | findLastAdDiv is null iff no wrapper is a shown ad wrapper; otherwise it is the last shown ad wrapper |
| Ads.TopmostSpec | src/adsidebar/ads.js:891-908 | the descendant filter keeps exactly the matched nodes that lie inside no other matched node, in order |
| Ads.TopmostNodes | src/adsidebar/ads.js:891-908 | the loop computes the descendant filter: a node is kept iff it is matched and not inside another match |
| Ads.OutsideContainer | src/adsidebar/ads.js:879-883 | a matched node is a candidate iff it exists and the ad container does not contain it |
| Ads.AdManager.constructor | src/adsidebar/ads.js:973-1006 | Ads.windowInit: state INIT, no container, `dirty` set, counters zero, empty ad list and iframe map |
| Ads.AdManager.ArmTick | src/adsidebar/ads.js:247 | setting the monitor timer records a fresh pending tick as `timeoutId` |
| Ads.AdManager.WindowLoad | src/adsidebar/ads.js:1012-1028 | state WINDOW_LOADED; a new empty DIV becomes the container; the dynamic-ad observer is on |
| Ads.AdManager.WindowUnload | src/adsidebar/ads.js:1034-1040 | the dynamic-ad observer is off |
| Ads.AdManager.ObserverNotified | src/adsidebar/ads.js:232-236 | a container mutation sets `dirty` while loading is monitored, and does nothing otherwise |
| Ads.AdManager.StartMonitorAdLoading | src/adsidebar/ads.js:225-250 | a tick is armed and the state becomes ADS_LOADING |
| Ads.AdManager.StopMonitorAdLoading | src/adsidebar/ads.js:256-266 | state ADS_LOADED and the pending tick is cleared |
| Ads.AdManager.KickMonitor | src/adsidebar/ads.js:1049-1061 | monitoring starts if not running; while running, a pending tick is replaced by a fresh one |
| Ads.AdManager.WrapIntoContainer | src/adsidebar/ads.js:1063-1077 | one fresh DIV is appended as the container's last child; the node becomes its only child and leaves its old parent |
| Ads.AdManager.InsertNewNode | src/adsidebar/ads.js:1043-1078 | insertNewNode: exactly one new wrapper at the end of the container holds the node, which no other node has as a child; monitoring is running afterwards |
| Ads.AdManager.InsertNewNodeDynamic | src/adsidebar/ads.js:1084-1113 | SCRIPT and OTHER are ignored; otherwise the node found by url is relocated, and nothing changes when none is found. The lookup is the corrected one, by tag (the source passes the resource type, ads.js:1098, see Findings). It skips nodes the ad container holds; the source tests the whole sidebar (ads.js:1104-1105), and only the container is modelled |
| Ads.AdManager.FindAdDivs | src/adsidebar/ads.js:572-622 | `adInfoArray` is rebuilt as the region list of the current wrappers, and `numNonEmptyAdDivs` is its length |
| Ads.AdManager.FindEmptyAdDivs | src/adsidebar/ads.js:688-782 | returns the empty regions; `numEmptyAdDivs` is their number |
| Ads.AdManager.StyleAndHide | src/adsidebar/ads.js:277-290 | every region's wrapper is styled; every unstyled wrapper and every empty region is hidden |
| Ads.AdManager.AdLoadingComplete | src/adsidebar/ads.js:271-323 | monitoring stops; regions are styled and hidden; the last shown wrapper is recorded; `numAds` rises to regions minus empty regions only if that is larger, and notification happens exactly then |
| Ads.AdManager.RaiseAdCount | src/adsidebar/ads.js:296-319 | `numAds` is replaced only by a larger count and never decreases; the notification fires iff it grew |
| Ads.AdManager.AfterIframesLoaded | src/adsidebar/ads.js:186-211 | after the probe the regions are recounted; any empty region rearms the tick with nothing else changed; otherwise loading completes (the refresh branch is shown unreachable) |
| Ads.AdManager.FinishLoading | src/adsidebar/ads.js:209-210 | counter reset to 0 and loading completes, notifying iff the count of regions exceeds the old `numAds` |
| Ads.AdManager.EndProbe | src/adsidebar/ads.js:508-527 | the round closes, the monitor timer is cleared and the continuation runs |
| Ads.AdManager.CheckIframesLoaded | src/adsidebar/ads.js:479-566 | with no iframe the continuation runs at once; otherwise a round opens with zero replies counted and nothing else changes |
| Ads.AdManager.ProbeReply | src/adsidebar/ads.js:539-556 | only a "complete" reply counts and overwrites its window's entry; the round closes and continues exactly when the count equals the number of iframes; no open round, no effect |
| Ads.AdManager.ProbeTimeout | src/adsidebar/ads.js:530-537 | the round closes without the continuation and the monitor tick is rearmed |
| Ads.AdManager.AdLoadingCheck | src/adsidebar/ads.js:159-212 | pending mutation records or `dirty` clear `dirty`, rearm the tick and evaluate nothing; otherwise the probe round starts |
| Ads.AdManager.MonitorTick | src/adsidebar/ads.js:131-154 | a tick runs the check iff fewer than ten ticks have been counted; a checked tick advances the counter by one or completes loading; the eleventh forces completion and resets the counter; `numAds` never decreases |
| Ads.AdManager.ForceComplete | src/adsidebar/ads.js:146-152 | the tick past the budget recounts the regions, resets the counter and completes loading |
| Ads.AdManager.MoveHiddenElements | src/adsidebar/ads.js:818-836 | the hidden matches outside the container and inside no other match are selected and counted in `numHiddenElements`; the container gains exactly one fresh wrapper per selected node, in selection order; each node ends in the wrapper of its own position or a later one, and a wrapper is left empty exactly when its node is selected again later |
| Ads.AdManager.WrapNext | src/adsidebar/ads.js:329-340 | one step of moveNodes: the next node goes into the next fresh wrapper at the end of the container, and the wrappers of earlier positions keep their node unless this one takes it |
| Ads.DynamicTargetAsWrittenMissesIframe | src/adsidebar/ads.js:1098 | as written, a late iframe request does not find the iframe that the corrected lookup finds |
| Ads.DynamicTargetAsWrittenNeverFinds | src/adsidebar/ads.js:1098 | as written, the lookup by resource type finds nothing when no element is named after the type |
| Ads.DynamicTargetSpec | src/adsidebar/ads.js:1091-1112 | the corrected lookup is none iff no element qualifies; otherwise it is the first element with the tag and url outside the container |
| Session.Session.constructor | src/adsidebar/adSidebar.js:137-168 | the new session record is in state INIT with an empty queue, no armed node, all flags false and an initialised ads object |
| Session.Session.SingleArmed | src/adsidebar/nodeQueue.js:134-156 | at most one node carries the queue's listeners, and it is `lastScriptNode` |
| NodeQueue.DrainedSpec | src/adsidebar/nodeQueue.js:291-367 | one replay takes the queue up to and including its first SCRIPT or SUBDOCUMENT entry, or all of it when there is none |
| NodeQueue.DrainedTail | src/adsidebar/nodeQueue.js:317-341 | after an entry that does not wait, the replay continues with the rest of the queue |
| NodeQueue.FeedConserves | src/adsidebar/nodeQueue.js:225-255 | over any sequence of writes, the flushed texts followed by the final buffer are exactly the old buffer and all the written strings |
| NodeQueue.FeedInsertsParsed | src/adsidebar/nodeQueue.js:232-242 | every text that is flushed parses to at least one node |
| NodeQueue.FeedKeepsUnparsed | src/adsidebar/nodeQueue.js:234-235 | a buffer that does not parse stays unparsed (or empty) after any writes |
| NodeQueue.NodeRemoveEventListeners | src/adsidebar/nodeQueue.js:149-156 | the armed node is disarmed and `lastScriptNode` is cleared |
| NodeQueue.NodeAddEventListeners | src/adsidebar/nodeQueue.js:134-144 | the previous node is disarmed first, so afterwards exactly the new node is armed |
| NodeQueue.ListeningAsWrittenKeepsStale | src/adsidebar/nodeQueue.js:152-153 | as written, arming an iframe and then a script leaves both listening |
| NodeQueue.PlaceScript | src/adsidebar/nodeQueue.js:348-366 | a new script with the entry's url inside a new div, wrapped and appended to the container |
| NodeQueue.AdmitScript | src/adsidebar/nodeQueue.js:343-367 | SCRIPT entry: the new script is armed and its div becomes `currentScriptDiv` |
| NodeQueue.FoundOutside | src/adsidebar/nodeQueue.js:297 | the element findNode returns is known, carries the entry's url, lies outside the container and is not one of its children |
| NodeQueue.PlaceSubdocument | src/adsidebar/nodeQueue.js:294-315 | corrected placement: the iframe findNode returns is reused, or else a new IFRAME is created; either carries the url and goes alone into one fresh wrapper appended to the container (the source passes the wrong variable in the second case, see Findings) |
| NodeQueue.AdmitSubdocument | src/adsidebar/nodeQueue.js:294-315 | SUBDOCUMENT entry, corrected: that iframe is placed as above and armed |
| NodeQueue.AdmitSubdocumentAsWritten | src/adsidebar/nodeQueue.js:294-315 | as written: a found iframe is handled as above; otherwise the new iframe is armed and given the url but has no parent, and the container gains an empty wrapper |
| NodeQueue.ArmDetachedIframe | src/adsidebar/nodeQueue.js:305-315 | the not-found branch as written: the new IFRAME with the url is armed and attached nowhere; the monitor runs and one empty wrapper is appended to the container |
| NodeQueue.PickOther | src/adsidebar/nodeQueue.js:319-331 | the found node is reused (an IMAGE gets `?adsidebar` appended to its src), or else one of the entry's tag is created with the url; it is not a child of the container |
| NodeQueue.AdmitOther | src/adsidebar/nodeQueue.js:317-341 | other kinds: that node goes alone into one fresh wrapper appended to the container |
| NodeQueue.InlineScriptsSpec | src/adsidebar/nodeQueue.js:61-67 | the rerun candidates are exactly the script elements without a src |
| NodeQueue.RerunWrappersSpec | src/adsidebar/nodeQueue.js:69-78 | the j-th rerun wrapper has the id after the j-th new script |
| NodeQueue.RerunOne | src/adsidebar/nodeQueue.js:71-77 | one new script, inserted through insertNewNode in its own wrapper |
| NodeQueue.RerunScripts | src/adsidebar/nodeQueue.js:69-78 | one new script and wrapper per inline script, appended to the container in order |
| NodeQueue.RerunInlineScripts | src/adsidebar/nodeQueue.js:55-79 | when `runlocalscripts` holds, every inline script is rerun; otherwise nothing |
| NodeQueue.RefreshGpt | src/adsidebar/nodeQueue.js:81-88 | when `refreshgpt` holds, the refresh script is appended to the container; otherwise nothing |
| NodeQueue.ScriptErrorContinuation | src/adsidebar/nodeQueue.js:53-89 | the continuation appends the rerun wrappers, then the refresh script |
| NodeQueue.OverrideJqueryReady | src/adsidebar/nodeQueue.js:96-129 | without `overridejqueryready` the continuation runs at once; otherwise the override script is appended and a listener waits for its reply |
| NodeQueue.JqueryReadyResponse | src/adsidebar/nodeQueue.js:101-112 | the reply removes the listener and runs the continuation; it does nothing when no listener waits |
| NodeQueue.HandleScriptError | src/adsidebar/nodeQueue.js:36-90 | nothing happens unless `scriptErrorFlag` is set; the latch is set and the body runs at most once; the container's children are only appended to |
| NodeQueue.ProcessNodeQueueComplete | src/adsidebar/nodeQueue.js:183-193 | state ADLOAD_START, then script-error handling, which only appends to the container |
| NodeQueue.Dequeue | src/adsidebar/nodeQueue.js:283 | exactly the head leaves the queue, in FIFO order, and its wrapper joins the placed ones |
| NodeQueue.Admit | src/adsidebar/nodeQueue.js:291-367 | the queue advances at once iff the entry is neither SCRIPT nor SUBDOCUMENT, otherwise a node is armed; in every case the entry's element (a script's div) goes into one fresh wrapper that becomes the container's last child |
| NodeQueue.AdmitHead | src/adsidebar/nodeQueue.js:283-367 | the head is admitted and shifted off; its wrapper, holding the head's element, is the one new child of the container |
| NodeQueue.AppendsPlacedStep | src/adsidebar/nodeQueue.js:340 | one placement followed by the rest of the replay appends all the wrappers in admission order |
| NodeQueue.ProcessHead | src/adsidebar/nodeQueue.js:282-367 | an empty queue completes and only appends to the container; otherwise the head is taken off and admitted into one new last wrapper |
| NodeQueue.ProcessNodeQueue | src/adsidebar/nodeQueue.js:267-369 | the replay removes exactly the drained prefix, in order; the container gains the wrappers of those entries in the order they were queued, followed by nothing else unless the queue ran dry; it completes when the queue runs dry and otherwise stops at a waiting entry with a node armed |
| NodeQueue.NodeSettled | src/adsidebar/nodeQueue.js:161-178 | a load or an error both disarm the node and continue the replay, with the same append order |
| NodeQueue.WindowLoad | src/adsidebar/nodeQueue.js:203-262 | the document.write override script is appended to the container and the write listener is attached |
| NodeQueue.AppendWithDummy | src/adsidebar/nodeQueue.js:239-255 | the parsed nodes and then one dummy script are appended to the div |
| NodeQueue.InsertFragment | src/adsidebar/nodeQueue.js:239-255 | the fragment and dummy are appended and the dummy becomes the armed node |
| NodeQueue.DocWriteNotification | src/adsidebar/nodeQueue.js:219-259 | each write is counted and appended to the buffer; a buffer that parses is flushed into `currentScriptDiv` followed by the armed dummy, and otherwise it is kept and nothing is inserted |
| NodeQueue.BufferWrite | src/adsidebar/nodeQueue.js:225-239 | the buffer becomes empty when the accumulated text parses to nodes, and keeps it otherwise |
| AdSidebar.TagForSpec | src/adsidebar/adSidebar.js:627-638 | SUBDOCUMENT maps to iframe, IMAGE to img, and every other type to itself; the mapping is idempotent |
| AdSidebar.UrlInfoReply | src/adsidebar/adSidebar.js:213-221 | a reply sets the three url options, and no reply leaves them |
| AdSidebar.AllowReply | src/adsidebar/adSidebar.js:270-276 | the ads module creates its empty container |
| AdSidebar.SelectorsReply | src/adsidebar/adSidebar.js:276-292 | state PROCESS_NODES_START, document.write listening, and the queue replayed only when nonempty |
| AdSidebar.MoveHidden | src/adsidebar/ads.js:818-836 | on the session: the selected hidden elements go, in order, into fresh wrappers appended to the container, as for `Ads.AdManager.MoveHiddenElements` |
| AdSidebar.StartReplay | src/adsidebar/adSidebar.js:278-291 | the Ads.windowLoad callback: PROCESS_NODES_START, the document.write override, then the drained prefix of the queue admitted |
| AdSidebar.ShowSidebar | src/adsidebar/adSidebar.js:347-352 | the sidebar is displayed; the flag is set before the style write, so it is set even where that write throws before load |
| AdSidebar.HideSidebar | src/adsidebar/adSidebar.js:333-342 | from WINDOW_LOAD on, when the sidebar div exists, the sidebar is not displayed; before that the style write throws on the missing div (adSidebar.js:141, 266) and the flag is left as it was |
| AdSidebar.AdLoadingComplete | src/adsidebar/adSidebar.js:514-571 | the sidebar is displayed and the state ends at DONE; the auto-hide timer is armed only when autohide times 1000 is nonzero |
| AdSidebar.AutoHideFired | src/adsidebar/adSidebar.js:538-545 | the auto-hide timer hides the sidebar; the timer is only ever armed after load, so the sidebar div exists then |
| AdSidebar.MonitorTick | src/adsidebar/adSidebar.js:238-240 | a monitor tick shows the sidebar and ends at DONE exactly when the ad count grew; otherwise state and display stay; the ad count never decreases; an auto-hide timer is armed exactly when one was armed or the tick showed the sidebar with a nonzero delay; the queue, the armed node and the script-error flags are untouched |
| AdSidebar.ProbeReply | src/adsidebar/adSidebar.js:238-240 | the same for a probe reply |
| AdSidebar.QueueRequest | src/adsidebar/adSidebar.js:676-682 | the request is appended to the tail of the queue, preserving arrival order |
| AdSidebar.RouteRequest | src/adsidebar/adSidebar.js:641-683 | below WINDOW_LOAD a request is queued; from ADLOAD_COMPLETE on it goes to the dynamic insert; in between it is dropped with no change. When nothing is relocated (SCRIPT, OTHER, no match, or any state before ADLOAD_COMPLETE) the page and the ads state are unchanged; a relocated node was outside the container and now sits in a wrapper among the container's children, with monitoring restarted. The session's other fields are untouched |
| AdSidebar.ContentScript.constructor | src/adsidebar/adSidebar.js:35-52 | an empty session map and preferences not yet received |
| AdSidebar.ContentScript.SessionOnlyForTop | src/adsidebar/adSidebar.js:125-137 | sessions exist only for the top window, and at most one |
| AdSidebar.ContentScript.WindowInit | src/adsidebar/adSidebar.js:125-242 | a fresh INIT session is created only for the top window and only when none exists, so repeating it changes nothing; the data request's answer is unchanged |
| AdSidebar.ContentScript.UpdatePrefs | src/adsidebar/adSidebar.js:67-75 | a preferences reply replaces the preferences, and no reply keeps them |
| AdSidebar.ContentScript.WindowLoad | src/adsidebar/adSidebar.js:247-266 | the session enters WINDOW_LOAD and nothing else changes: the queue built before load, the armed node, the flags and the display stay, and so do the modelled page and the ads object (the sidebar div that `createSidebar` inserts here is not modelled, see "## Left out"); no session means no change; the data request's answer is unchanged |
| AdSidebar.ContentScript.WindowUnload | src/adsidebar/adSidebar.js:299-314 | the dynamic-ad observer stops and the session is removed from the map, after which the data request reports disabled and hidden |
| AdSidebar.ContentScript.WindowError | src/adsidebar/adSidebar.js:319-328 | `scriptErrorFlag` is set on the session and nothing else changes: state, queue, armed node, display, page and ads object stay; the data request's answer is unchanged |
| AdSidebar.ContentScript.TopMonitorTick | src/adsidebar/adSidebar.js:97-118 | once the data request reports the sidebar enabled, a monitor tick never makes it report disabled; a tick that raises the ad count makes it report enabled and displayed, and any other tick leaves the answer unchanged; the session ends at DONE exactly on such a tick and keeps its state otherwise; the queue, the armed node and the script-error flags (so a recorded error) survive the tick |
| AdSidebar.ContentScript.TopProbeReply | src/adsidebar/adSidebar.js:97-118 | the same for a probe reply |
| AdSidebar.ContentScript.Toggle | src/adsidebar/adSidebar.js:78-95 | from WINDOW_LOAD on, toggling flips the displayed flag the data request reports; before it, hiding throws on the missing sidebar div (adSidebar.js:336-341) while showing sets the flag before its own throw (adSidebar.js:350), so the flag ends up set either way; the enabled flag is left; the session's state, queue, flags, page and ads object are untouched |
| AdSidebar.ContentScript.ProcessPolicyResponse | src/adsidebar/adSidebar.js:602-684 | disabled or sessionless: no change; otherwise the request with its mapped tag is routed by the top session's state, with the page effects of `AdSidebar.RouteRequest` (SCRIPT, OTHER and unmatched requests leave the page alone; a matched one ends up wrapped in the container); only the queue may change among the session's fields; the data request's answer is unchanged |

## Left out

- The status iframe is not inserted. On a completion that raises the ad count while `prevLastAdDiv` is set (ads.js:303-309), `createStatusIframe` inserts an IFRAME directly into the ad container after that div (ads.js:956). The model leaves the page unchanged at completion (`Ads.AdManager.AdLoadingComplete`, `AdSidebar.MonitorTick`, `AdSidebar.ProbeReply`). So later probe rounds, which count every iframe in the container (ads.js:482), and later container scans (ads.js:579, 668) miss it.
- Styling and layout are not modelled, because they are CSS strings, floating-point scaling and synchronous XHR: `createSidebar`, the styling inside `createStatusIframe`, `styleAdDivs`, `stripStylesFromAds`, sidebar widths, `sidebarExpanded` and the zIndex writes. The CSS effect of `hideNonAdDivs` and `hideEmptyAdDivs` is kept only as the `styled` and `hidden` sets.
- The sidebar div is not modelled, so the ad container is a root with no parent (`Ads.AdManager.WindowLoad`). In the source the container is appended to the sidebar div (ads.js:57), which is inserted into the body (adSidebar.js:505). So the body and html are ancestors of the container there, and moving one of them into it would throw a HierarchyRequestError. The model does not capture that throw.
- Real time is not modelled. Timers are ids and their firing is an input event. `clearTimeout` removes an id from the pending set.
- The dynamic-ad observer's 100 ms debounce is not modelled. Its timer callback is `Ads.AdManager.MoveHiddenElements`.
- `stopDynamicAdObserver` hands `clearTimeout` the function `dynamicAdObserverTimeout` (declared at ads.js:67) instead of the stored timer id (ads.js:117). That call does nothing, so a pending debounce timer survives teardown. The debounce timer itself is not modelled, so neither is its survival; the modelled effect is that the observer is off.
- `return allow` (adSidebar.js:607) names an undefined identifier. The resulting exception only ends the handler, so it is modelled as returning with no effect.
- Messaging with the background page is not modelled. That includes the allow and disallow messages and the requests for preferences, url info and selectors; their replies are inputs (`UrlInfoReply`, `UpdatePrefs`, `SelectorsReply`).
- The CSS selector engine, `getComputedStyle` and the HTML parser are not modelled. Selector matches are an input list, and parsing is the uninterpreted `parse`.
- A preference not yet received is `null` in the source. The model reads it as false for `enabled` and as 0 for autohide, which is how JavaScript evaluates `!null` and `null * 1000`.
- The auto-hide mouseover and mouseout listeners are not modelled. Only the armed flag and `AdSidebar.AutoHideFired` are.
- Probe rounds do not overlap. A second round that starts while one is open is not modelled.
- `if (!doc)` and `if (!wnd)` guards are not modelled. The model always has a document.
- `logDebugInfo` and the debug listeners for `DOMContentLoaded` and `readystatechange` are not modelled, because they do nothing.
- The dummy script is created directly rather than parsed from `<script></script>`.
- `AdSidebar.UrlInfoReply`, `AdSidebar.AllowReply` and `AdSidebar.SelectorsReply` act on the session captured when the request was sent, even if it has since left the map.
- The queue-complete notifications set the state to PROCESS_NODES_COMPLETE and then ADLOAD_START. The model keeps only the final value, ADLOAD_START, which may also overwrite DONE as in the source.
- `NodeQueue.Drained` only bounds its result. Its meaning is stated by `NodeQueue.DrainedSpec`.
- Ads.AdManager.MonitorTick: the "at most ten checks per pass" budget follows from its contract and the `elapsedAdLoadTime <= 10` invariant, not from a separate lemma over tick sequences.
- `Ads.Layout` is one snapshot per event. Layout changes within one event are not modelled.
- NodeQueue.ProcessNodeQueue: what each wrapper holds (`NodeQueue.Holds`) is stated when the wrapper is placed (`NodeQueue.AdmitHead`). It is not carried through the later placements of the same replay; only the order of the wrappers is.
- Whether an armed node ever fires load or error is not modelled: `NodeQueue.NodeSettled` is an input event. The dummy script armed after a `document.write` flush (nodeQueue.js:239-255) is an inline script, and an inline script fires no load event. With the listeners removed as intended, the replay would therefore wait on that dummy indefinitely. As written, listeners that were never removed from earlier nodes, the script that did the write among them, can still advance it.
- The exceptions that end a call as written (the not-found SUBDOCUMENT branch, and `hideSidebar` before the sidebar div exists) are modelled as the end of the method. Nothing after it in the source runs, and the model has nothing after it either.

## Findings

| source | as written | input that shows it | evidently intended | confidence | as-written member | corrected member |
|---|---|---|---|---|---|---|
| src/adsidebar/ads.js:1098 | `insertNewNodeDynamic` looks the node up with `nodeInfo.type` ("SUBDOCUMENT", "IMAGE") as the tag, and no element has that name | a late SUBDOCUMENT request for `https://ads.example/slot` on a page holding `<iframe src="https://ads.example/slot">` outside the sidebar: nothing is relocated | look the node up by `nodeInfo.tagType` ("iframe", "img"), as `processNodeQueue` does | not executed | Ads.DynamicTargetAsWrittenMissesIframe | Ads.DynamicTargetSpec |
| src/adsidebar/nodeQueue.js:305-315 | in the not-found SUBDOCUMENT branch the new iframe is declared with `let` in an inner block, so `insertNewNode` receives the outer `node`, which is null; it appends an empty wrapper and then throws on `node.parentElement`, leaving the armed iframe attached nowhere | a SUBDOCUMENT entry for `https://ads.example/frame` when the page holds no such iframe: the container gains an empty div, the iframe never loads, and the queue stalls on it | assign the new iframe to the outer `node`, so that it is wrapped into the container | not executed | NodeQueue.AdmitSubdocumentAsWritten | NodeQueue.AdmitSubdocument |
| src/adsidebar/nodeQueue.js:152-153 | `removeEventListener` is given the unbound `nodeLoaded`/`nodeError`, which were never attached, so earlier nodes keep their bound listeners | a SUBDOCUMENT entry followed by a SCRIPT entry: the iframe stays armed while the script is pending, and a second load inside the iframe advances the queue early | remove the listeners that were attached, so only `lastScriptNode` is armed | not executed | NodeQueue.ListeningAsWrittenKeepsStale | NodeQueue.NodeAddEventListeners |
