/**
 * The ad container and its readiness monitor (ads.js): relocation of nodes
 * into wrapper divs, the per-second loading check with its ten-tick budget,
 * the iframe probe round, and the classification of wrappers into ad regions
 * and empty regions.
 */
module Ads {
  import opened Dom
  import opened Utils

  /** Identity of an iframe's content window, the key of the probe replies. */
  type WindowId = nat

  const AdsStateInit := 0
  const AdsStateWindowLoaded := 1
  const AdsStateAdsLoading := 2
  const AdsStateAdsLoaded := 3

  /** The loading wait is capped at this many monitor ticks (one per second). */
  const MaxAdLoadTicks := 10
  /** A box at or below this many pixels on an axis is too thin to be an ad. */
  const MinAdSize := 15

  /**
   * What the browser reports when a check runs: the offset size of a node,
   * the content windows of the iframes below a node (null for one without),
   * the number of images below a node, and a node's `innerText`.
   */
  datatype Layout = Layout(
    size: NodeId -> (Dim, Dim),
    iframesIn: NodeId -> seq<Option<WindowId>>,
    imgsIn: NodeId -> nat,
    text: NodeId -> string)

  /** An ad found by `findAdDivs`: its wrapper, the ad node, and the measured size. */
  datatype AdInfo = AdInfo(div: NodeId, ad: NodeId, width: Dim, height: Dim)

  /** A probe reply's body size, recorded per content window. */
  datatype IframeInfo = IframeInfo(width: Dim, height: Dim)

  /** An open probe round: the number of "complete" replies so far. */
  datatype ProbeRound = ProbeRound(loadedCount: nat)

  // ---------------------------------------------------------------------
  // Region discovery (findAdDivs)

  /** A size that passes the filters of findAdDivs: not both NaN, neither axis at or below 15. */
  predicate Visible(w: Dim, h: Dim)
  {
    !(w.NaN? && h.NaN?) && !AtMost(w, MinAdSize) && !AtMost(h, MinAdSize)
  }

  /** The ad that container child `w` holds, or None where findAdDivs skips it. */
  function Candidate(kids: map<NodeId, seq<NodeId>>, name: map<NodeId, string>, lay: Layout, w: NodeId): Option<AdInfo>
  {
    var inner := KidsOf(kids, w);
    if |inner| == 0 then None
    else
      var node := inner[0];
      if |KidsOf(kids, node)| == 0 && NameOf(name, node) != "IFRAME" && NameOf(name, node) != "IMG" then None
      else if Visible(lay.size(node).0, lay.size(node).1) then
        Some(AdInfo(w, node, lay.size(node).0, lay.size(node).1))
      else None
  }

  /** The ads of container children `ws`, in container order. */
  function AdDivs(kids: map<NodeId, seq<NodeId>>, name: map<NodeId, string>, lay: Layout, ws: seq<NodeId>): seq<AdInfo>
  {
    if ws == [] then []
    else
      var c := Candidate(kids, name, lay, ws[|ws| - 1]);
      AdDivs(kids, name, lay, ws[..|ws| - 1]) + (if c.Some? then [c.value] else [])
  }

  /**
   * Every recorded ad comes from one of the children and passes the size
   * filters, and every child that holds an ad is recorded.
   */
  lemma {:induction false} AdDivsSpec(kids: map<NodeId, seq<NodeId>>, name: map<NodeId, string>, lay: Layout, ws: seq<NodeId>)
    ensures |AdDivs(kids, name, lay, ws)| <= |ws|
    ensures forall k :: 0 <= k < |AdDivs(kids, name, lay, ws)| ==>
      var a := AdDivs(kids, name, lay, ws)[k];
      a.div in ws && Candidate(kids, name, lay, a.div) == Some(a) && Visible(a.width, a.height)
    ensures forall w :: w in ws && Candidate(kids, name, lay, w).Some? ==>
      Candidate(kids, name, lay, w).value in AdDivs(kids, name, lay, ws)
  {
    if ws != [] {
      var init := ws[..|ws| - 1];
      AdDivsSpec(kids, name, lay, init);
      assert ws == init + [ws[|ws| - 1]];
    }
  }

  // ---------------------------------------------------------------------
  // Empty-region classification (findEmptyAdDivs)

  /** An iframe whose content window answered with a size that is not degenerate. */
  predicate IframeLoaded(m: map<WindowId, IframeInfo>, f: Option<WindowId>)
  {
    f.Some? && f.value in m &&
    !(m[f.value].width.NaN? && m[f.value].height.NaN?) &&
    !(AtMost(m[f.value].width, MinAdSize) && AtMost(m[f.value].height, MinAdSize))
  }

  /** The loop of checkEmptyIframe: true until some iframe is found loaded. */
  function NoneLoaded(m: map<WindowId, IframeInfo>, fs: seq<Option<WindowId>>): bool
  {
    if fs == [] then true
    else if IframeLoaded(m, fs[0]) then false
    else NoneLoaded(m, fs[1..])
  }

  lemma {:induction false} NoneLoadedIff(m: map<WindowId, IframeInfo>, fs: seq<Option<WindowId>>)
    ensures NoneLoaded(m, fs) <==> forall i :: 0 <= i < |fs| ==> !IframeLoaded(m, fs[i])
  {
    if fs != [] {
      NoneLoadedIff(m, fs[1..]);
      assert forall i :: 1 <= i < |fs| ==> fs[i] == fs[1..][i - 1];
    }
  }

  /** checkEmptyIframe: at least one iframe, and none of them loaded. */
  predicate CheckEmptyIframe(m: map<WindowId, IframeInfo>, fs: seq<Option<WindowId>>)
  {
    NoneLoaded(m, fs) && |fs| > 0
  }

  /** checkEmptyDiv: no iframe, no image and no text. */
  predicate CheckEmptyDiv(lay: Layout, div: NodeId)
  {
    |lay.iframesIn(div)| == 0 && lay.imgsIn(div) == 0 && lay.text(div) == ""
  }

  predicate IsEmptyRegion(m: map<WindowId, IframeInfo>, lay: Layout, div: NodeId)
  {
    CheckEmptyIframe(m, lay.iframesIn(div)) || CheckEmptyDiv(lay, div)
  }

  /** The wrappers of `infos` that are empty regions, in order. */
  function EmptyDivs(m: map<WindowId, IframeInfo>, lay: Layout, infos: seq<AdInfo>): seq<NodeId>
  {
    if infos == [] then []
    else
      var d := infos[|infos| - 1].div;
      EmptyDivs(m, lay, infos[..|infos| - 1]) + (if IsEmptyRegion(m, lay, d) then [d] else [])
  }

  lemma {:induction false} EmptyDivsSpec(m: map<WindowId, IframeInfo>, lay: Layout, infos: seq<AdInfo>)
    ensures |EmptyDivs(m, lay, infos)| <= |infos|
    ensures forall d :: d in EmptyDivs(m, lay, infos) <==>
      exists k :: 0 <= k < |infos| && infos[k].div == d && IsEmptyRegion(m, lay, d)
  {
    if infos != [] {
      var init := infos[..|infos| - 1];
      EmptyDivsSpec(m, lay, init);
      assert forall k :: 0 <= k < |init| ==> infos[k] == init[k];
    }
  }

  /**
   * A region with iframes none of which ever answered a probe counts as empty:
   * iframes without a reply are skipped, never counted as loaded.
   */
  lemma SilentRegionIsEmpty(m: map<WindowId, IframeInfo>, lay: Layout, div: NodeId)
    requires |lay.iframesIn(div)| > 0
    requires forall i :: 0 <= i < |lay.iframesIn(div)| ==>
      lay.iframesIn(div)[i].None? || lay.iframesIn(div)[i].value !in m
    ensures IsEmptyRegion(m, lay, div)
  {
    NoneLoadedIff(m, lay.iframesIn(div));
  }

  // ---------------------------------------------------------------------
  // Last visible ad wrapper (findLastAdDiv)

  /** Styled as an ad wrapper and not hidden with `display: none`. */
  predicate Shown(w: NodeId, styled: set<NodeId>, hidden: set<NodeId>)
  {
    w in styled && w !in hidden
  }

  function LastAdDiv(ws: seq<NodeId>, styled: set<NodeId>, hidden: set<NodeId>): Option<NodeId>
  {
    if ws == [] then None
    else if Shown(ws[|ws| - 1], styled, hidden) then Some(ws[|ws| - 1])
    else LastAdDiv(ws[..|ws| - 1], styled, hidden)
  }

  lemma {:induction false} LastAdDivSpec(ws: seq<NodeId>, styled: set<NodeId>, hidden: set<NodeId>)
    ensures LastAdDiv(ws, styled, hidden).None? <==>
      forall i :: 0 <= i < |ws| ==> !Shown(ws[i], styled, hidden)
    ensures LastAdDiv(ws, styled, hidden).Some? ==>
      exists i :: 0 <= i < |ws| && ws[i] == LastAdDiv(ws, styled, hidden).value &&
        Shown(ws[i], styled, hidden) &&
        forall j :: i < j < |ws| ==> !Shown(ws[j], styled, hidden)
  {
    if ws != [] {
      var n := |ws| - 1;
      var init := ws[..n];
      LastAdDivSpec(init, styled, hidden);
      if !Shown(ws[n], styled, hidden) {
        assert LastAdDiv(ws, styled, hidden) == LastAdDiv(init, styled, hidden);
        if LastAdDiv(init, styled, hidden).Some? {
          var i :| 0 <= i < |init| && init[i] == LastAdDiv(init, styled, hidden).value &&
            Shown(init[i], styled, hidden) &&
            forall j :: i < j < |init| ==> !Shown(init[j], styled, hidden);
          assert ws[i] == init[i];
          forall j | i < j < |ws| ensures !Shown(ws[j], styled, hidden) {
            if j < n { assert ws[j] == init[j]; }
          }
        } else {
          forall k | 0 <= k < |ws| ensures !Shown(ws[k], styled, hidden) {
            if k < n { assert ws[k] == init[k]; }
          }
        }
      }
    }
  }

  // ---------------------------------------------------------------------
  // Descendant filter of getHiddenElements

  /** Some other node of `all` contains `n`. */
  predicate InsideAnother(all: seq<NodeId>, n: NodeId, parent: map<NodeId, NodeId>, fuel: nat)
  {
    exists k :: 0 <= k < |all| && all[k] != n && Within(parent, n, all[k], fuel)
  }

  /** The nodes among the first `i` of `all` that no other node of `all` contains. */
  function TopmostPrefix(all: seq<NodeId>, i: nat, parent: map<NodeId, NodeId>, fuel: nat): seq<NodeId>
    requires i <= |all|
  {
    if i == 0 then []
    else
      var keep := !InsideAnother(all, all[i - 1], parent, fuel);
      TopmostPrefix(all, i - 1, parent, fuel) + (if keep then [all[i - 1]] else [])
  }

  lemma {:induction false} TopmostSpec(all: seq<NodeId>, i: nat, parent: map<NodeId, NodeId>, fuel: nat)
    requires i <= |all|
    ensures |TopmostPrefix(all, i, parent, fuel)| <= i
    ensures forall x :: x in TopmostPrefix(all, i, parent, fuel) <==>
      x in all[..i] && !InsideAnother(all, x, parent, fuel)
  {
    if i > 0 {
      TopmostSpec(all, i - 1, parent, fuel);
      assert all[..i] == all[..i - 1] + [all[i - 1]];
    }
  }

  /**
   * The nested loops that drop every node contained in another candidate.
   * The candidates are the elements matched by the hiding selectors.
   */
  method TopmostNodes(adNodeArray: seq<NodeId>, parent: map<NodeId, NodeId>, fuel: nat) returns (result: seq<NodeId>)
    ensures result == TopmostPrefix(adNodeArray, |adNodeArray|, parent, fuel)
    ensures forall x :: x in result <==> x in adNodeArray && !InsideAnother(adNodeArray, x, parent, fuel)
  {
    result := [];
    var i := 0;
    while i < |adNodeArray|
      invariant 0 <= i <= |adNodeArray|
      invariant result == TopmostPrefix(adNodeArray, i, parent, fuel)
    {
      var node := adNodeArray[i];
      var isDescendant := false;
      var j := 0;
      while j < |adNodeArray|
        invariant 0 <= j <= |adNodeArray|
        invariant isDescendant <==>
          exists k :: 0 <= k < j && adNodeArray[k] != node && Within(parent, node, adNodeArray[k], fuel)
      {
        var tempNode := adNodeArray[j];
        if tempNode != node && Within(parent, node, tempNode, fuel) {
          isDescendant := true;
        }
        j := j + 1;
      }
      if !isDescendant {
        result := result + [node];
      }
      i := i + 1;
    }
    TopmostSpec(adNodeArray, |adNodeArray|, parent, fuel);
    assert adNodeArray[..|adNodeArray|] == adNodeArray;
  }

  /** The matched elements that exist and are not already inside the container. */
  function OutsideContainer(name: map<NodeId, string>, parent: map<NodeId, NodeId>, fuel: nat,
                            container: NodeId, matched: seq<NodeId>): (r: seq<NodeId>)
    ensures forall x :: x in r <==> x in matched && x in name && !Within(parent, x, container, fuel)
  {
    if matched == [] then []
    else
      var rest := OutsideContainer(name, parent, fuel, container, matched[1..]);
      var keep := matched[0] in name && !Within(parent, matched[0], container, fuel);
      (if keep then [matched[0]] else []) + rest
  }

  /** The wrappers of a list of ads. */
  function DivsOf(infos: seq<AdInfo>): set<NodeId>
  {
    set k | 0 <= k < |infos| :: infos[k].div
  }

  // ---------------------------------------------------------------------

  /** The `ads` object of one session. */
  class AdManager {
    const page: Page
    var state: nat
    var container: Option<NodeId>
    var adInfoArray: seq<AdInfo>
    var iframeMap: map<WindowId, IframeInfo>
    var elapsedAdLoadTime: nat
    var dirty: bool
    var dynamicObserving: bool
    /** Id of the last monitor timer set; 0 when none. */
    var timeoutId: nat
    /** Monitor timers set and not yet fired or cleared. */
    var pendingTicks: set<nat>
    var nextTimer: nat
    var probe: Option<ProbeRound>
    /** Wrappers given the ad-wrapper class, and nodes set to `display: none`. */
    var styled: set<NodeId>
    var hidden: set<NodeId>
    var prevLastAdDiv: Option<NodeId>
    var lastAdDiv: Option<NodeId>
    var numHiddenElements: nat
    var numNonEmptyAdDivs: nat
    var numEmptyAdDivs: nat
    var numAds: nat

    /**
     * The monitor's own invariant. The document's consistency, `page.Valid()`,
     * is required separately by the operations that edit the document.
     */
    ghost predicate Valid()
      reads this, page
    {
      state <= AdsStateAdsLoaded &&
      elapsedAdLoadTime <= MaxAdLoadTicks &&
      (container.Some? <==> state >= AdsStateWindowLoaded) &&
      (container.Some? ==> container.value in page.name) &&
      ((pendingTicks != {} || probe.Some?) ==> state >= AdsStateWindowLoaded) &&
      0 < nextTimer &&
      numNonEmptyAdDivs == |adInfoArray|
    }

    /** Ads.windowInit. */
    constructor (page: Page)
      requires page.Valid()
      ensures Valid() && page.Valid() && this.page == page
      ensures state == AdsStateInit && container == None && dirty && elapsedAdLoadTime == 0
      ensures adInfoArray == [] && iframeMap == map[] && pendingTicks == {} && timeoutId == 0
      ensures probe == None && numAds == 0 && numHiddenElements == 0 && !dynamicObserving
    {
      this.page := page;
      state := AdsStateInit;
      container := None;
      adInfoArray := [];
      iframeMap := map[];
      elapsedAdLoadTime := 0;
      dirty := true;
      dynamicObserving := false;
      timeoutId := 0;
      pendingTicks := {};
      nextTimer := 1;
      probe := None;
      styled, hidden := {}, {};
      prevLastAdDiv, lastAdDiv := None, None;
      numHiddenElements, numNonEmptyAdDivs, numEmptyAdDivs, numAds := 0, 0, 0, 0;
    }

    /** `ads.timeoutId = setTimeout(monitorAdLoadingTimeout, 1000)`. */
    method ArmTick()
      requires Valid() && state >= AdsStateWindowLoaded
      modifies this`timeoutId, this`pendingTicks, this`nextTimer
      ensures Valid()
      ensures timeoutId == old(nextTimer) && nextTimer == old(nextTimer) + 1
      ensures pendingTicks == old(pendingTicks) + {timeoutId}
    {
      timeoutId := nextTimer;
      pendingTicks := pendingTicks + {timeoutId};
      nextTimer := nextTimer + 1;
    }

    /** The synchronous part of Ads.windowLoad: create the container, watch for dynamic ads. */
    method WindowLoad()
      requires Valid() && page.Valid()
      modifies this`state, this`container, this`dynamicObserving, page
      ensures Valid() && page.Valid()
      ensures state == AdsStateWindowLoaded && dynamicObserving
      ensures container == Some(old(page.nextId)) && page.Kids(container.value) == []
      ensures page.name == old(page.name)[container.value := "DIV"]
      ensures page.parent == old(page.parent) && page.src == old(page.src)[container.value := ""]
    {
      state := AdsStateWindowLoaded;
      var div := page.CreateElement("div");
      UpperTags();
      container := Some(div);
      dynamicObserving := true;
    }

    /** Ads.windowUnload: disconnect the dynamic-ad observer. */
    method WindowUnload()
      modifies this`dynamicObserving
      ensures !dynamicObserving
    {
      dynamicObserving := false;
    }

    /** The loading observer's callback; it is connected only while loading. */
    method ObserverNotified()
      requires Valid()
      modifies this`dirty
      ensures Valid()
      ensures dirty == (old(dirty) || state == AdsStateAdsLoading)
    {
      if state == AdsStateAdsLoading {
        dirty := true;
      }
    }

    method StartMonitorAdLoading()
      requires Valid() && state >= AdsStateWindowLoaded
      modifies this`timeoutId, this`pendingTicks, this`nextTimer, this`state
      ensures Valid()
      ensures state == AdsStateAdsLoading
      ensures timeoutId == old(nextTimer) && pendingTicks == old(pendingTicks) + {timeoutId}
    {
      ArmTick();
      state := AdsStateAdsLoading;
    }

    method StopMonitorAdLoading()
      requires Valid() && state >= AdsStateWindowLoaded
      modifies this`state, this`pendingTicks
      ensures Valid()
      ensures state == AdsStateAdsLoaded && pendingTicks == old(pendingTicks) - {timeoutId}
    {
      state := AdsStateAdsLoaded;
      pendingTicks := pendingTicks - {timeoutId};
    }

    /** The monitor half of insertNewNode: start it, or restart its pending timer. */
    method KickMonitor()
      requires Valid() && container.Some?
      modifies this`timeoutId, this`pendingTicks, this`nextTimer, this`state
      ensures Valid()
      ensures state == AdsStateAdsLoading
      ensures old(state) != AdsStateAdsLoading ==>
        timeoutId == old(nextTimer) && pendingTicks == old(pendingTicks) + {timeoutId}
      ensures old(state) == AdsStateAdsLoading && old(timeoutId) != 0 ==>
        timeoutId == old(nextTimer) && pendingTicks == old(pendingTicks) - {old(timeoutId)} + {timeoutId}
      ensures old(state) == AdsStateAdsLoading && old(timeoutId) == 0 ==>
        timeoutId == 0 && pendingTicks == old(pendingTicks)
    {
      if state != AdsStateAdsLoading {
        StartMonitorAdLoading();
      } else if timeoutId != 0 {
        pendingTicks := pendingTicks - {timeoutId};
        ArmTick();
      }
    }

    /** The document half of insertNewNode: a fresh wrapper as the container's last child, holding `node`. */
    method WrapIntoContainer(node: NodeId) returns (wrapper: NodeId)
      requires Valid() && page.Valid() && container.Some? && node in page.name && node != container.value
      modifies page
      ensures Valid() && page.Valid()
      ensures wrapper == old(page.nextId) && wrapper !in old(page.name) && page.nextId == wrapper + 1
      ensures page.Kids(container.value) == Without(old(page.Kids(container.value)), node) + [wrapper]
      ensures page.Kids(wrapper) == [node] && page.parent == old(page.parent)[wrapper := container.value][node := wrapper]
      ensures forall q :: q != container.value && q != wrapper ==> page.Kids(q) == Without(old(page.Kids(q)), node)
      ensures forall q ::
        q != container.value && q != wrapper && (node in old(page.parent) ==> q != old(page.parent)[node]) ==>
          page.Kids(q) == old(page.Kids(q))
      ensures page.name == old(page.name)[wrapper := "DIV"] && page.src == old(page.src)[wrapper := ""]
    {
      wrapper := page.WrapChild(container.value, node);
    }

    /**
     * Ads.insertNewNode: start (or restart) the monitor, append a fresh
     * wrapper div as the container's last child and move `node` into it.
     */
    method InsertNewNode(node: NodeId) returns (wrapper: NodeId)
      requires Valid() && page.Valid() && container.Some? && node in page.name && node != container.value
      modifies this`timeoutId, this`pendingTicks, this`nextTimer, this`state, page
      ensures Valid() && page.Valid()
      ensures wrapper == old(page.nextId) && wrapper !in old(page.name) && page.nextId == wrapper + 1
      ensures page.Kids(container.value) == Without(old(page.Kids(container.value)), node) + [wrapper]
      ensures page.Kids(wrapper) == [node] && page.parent == old(page.parent)[wrapper := container.value][node := wrapper]
      ensures forall q :: q != container.value && q != wrapper ==> page.Kids(q) == Without(old(page.Kids(q)), node)
      ensures forall q :: q != wrapper ==> node !in page.Kids(q)
      ensures forall q ::
        q != container.value && q != wrapper && (node in old(page.parent) ==> q != old(page.parent)[node]) ==>
          page.Kids(q) == old(page.Kids(q))
      ensures page.name == old(page.name)[wrapper := "DIV"] && page.src == old(page.src)[wrapper := ""]
      ensures state == AdsStateAdsLoading
      ensures old(state) != AdsStateAdsLoading ==>
        timeoutId == old(nextTimer) && pendingTicks == old(pendingTicks) + {timeoutId}
      ensures old(state) == AdsStateAdsLoading && old(timeoutId) != 0 ==>
        timeoutId == old(nextTimer) && pendingTicks == old(pendingTicks) - {old(timeoutId)} + {timeoutId}
      ensures old(state) == AdsStateAdsLoading && old(timeoutId) == 0 ==>
        timeoutId == 0 && pendingTicks == old(pendingTicks)
    {
      KickMonitor();
      wrapper := WrapIntoContainer(node);
      assert node in page.parent && page.parent[node] == wrapper;
    }

    /**
     * Ads.insertNewNodeDynamic: a request that arrives after loading finished
     * relocates the matching element, unless it is a script or of kind OTHER.
     */
    method InsertNewNodeDynamic(info: NodeInfo, order: seq<NodeId>) returns (moved: Option<NodeId>)
      requires Valid() && page.Valid() && container.Some?
      modifies this`timeoutId, this`pendingTicks, this`nextTimer, this`state, page
      ensures Valid() && page.Valid()
      ensures info.kind == "SCRIPT" || info.kind == "OTHER" ==> moved == None
      ensures info.kind != "SCRIPT" && info.kind != "OTHER" ==>
        moved == DynamicTarget(old(page.View(order, container)), info)
      ensures moved == None ==>
        && page.kids == old(page.kids) && page.parent == old(page.parent)
        && page.name == old(page.name) && state == old(state) && pendingTicks == old(pendingTicks)
      ensures forall n | n in old(page.name) :: n in page.name
      ensures moved.Some? ==>
        && moved.value in old(page.name)
        && !old(page.Contains(container.value, moved.value))
        && moved.value in page.parent
        && page.parent[moved.value] in page.Kids(container.value)
        && state == AdsStateAdsLoading
    {
      moved := None;
      if info.kind == "SCRIPT" || info.kind == "OTHER" {
        return;
      }
      var view := page.View(order, container);
      var node := DynamicTarget(view, info);
      if node.None? {
        return;
      }
      FindNodeSpec(view, info.tagType, info.url);
      page.ViewSpec(order, container);
      var i :| 0 <= i < |view| && Qualifies(view[i], info.tagType, info.url) && view[i].id == node.value;
      var w := InsertNewNode(node.value);
      moved := node;
    }

    /** findAdDivs: rebuild `adInfoArray` from the container's children. */
    method FindAdDivs(lay: Layout)
      requires Valid() && container.Some?
      modifies this`adInfoArray, this`numNonEmptyAdDivs
      ensures Valid()
      ensures adInfoArray == AdDivs(page.kids, page.name, lay, page.Kids(container.value))
      ensures numNonEmptyAdDivs == |adInfoArray|
    {
      var childNodeArray := page.Kids(container.value);
      var count := 0;
      adInfoArray := [];
      var i := 0;
      while i < |childNodeArray|
        invariant 0 <= i <= |childNodeArray|
        invariant adInfoArray == AdDivs(page.kids, page.name, lay, childNodeArray[..i])
        invariant count == |adInfoArray|
      {
        assert childNodeArray[..i + 1][..i] == childNodeArray[..i];
        var inner := page.Kids(childNodeArray[i]);
        i := i + 1;
        if |inner| == 0 {
          continue;
        }
        var node := inner[0];
        if |page.Kids(node)| == 0 {
          if NameOf(page.name, node) != "IFRAME" && NameOf(page.name, node) != "IMG" {
            continue;
          }
        }
        var (w, h) := lay.size(node);
        if w.NaN? && h.NaN? {
          continue;
        }
        if AtMost(w, MinAdSize) || AtMost(h, MinAdSize) {
          continue;
        }
        count := count + 1;
        adInfoArray := adInfoArray + [AdInfo(childNodeArray[i - 1], node, w, h)];
      }
      assert childNodeArray[..i] == childNodeArray;
      numNonEmptyAdDivs := count;
    }

    /** findEmptyAdDivs: the recorded ad wrappers that did not load. */
    method FindEmptyAdDivs(lay: Layout) returns (emptyAdDivsArray: seq<NodeId>)
      requires Valid()
      modifies this`numEmptyAdDivs
      ensures Valid()
      ensures emptyAdDivsArray == EmptyDivs(iframeMap, lay, adInfoArray)
      ensures numEmptyAdDivs == |emptyAdDivsArray|
    {
      emptyAdDivsArray := [];
      var i := 0;
      while i < |adInfoArray|
        invariant 0 <= i <= |adInfoArray|
        invariant emptyAdDivsArray == EmptyDivs(iframeMap, lay, adInfoArray[..i])
      {
        assert adInfoArray[..i + 1][..i] == adInfoArray[..i];
        var node := adInfoArray[i].div;
        i := i + 1;
        if CheckEmptyIframe(iframeMap, lay.iframesIn(node)) {
          emptyAdDivsArray := emptyAdDivsArray + [node];
          continue;
        }
        if CheckEmptyDiv(lay, node) {
          emptyAdDivsArray := emptyAdDivsArray + [node];
        }
      }
      assert adInfoArray[..i] == adInfoArray;
      numEmptyAdDivs := |emptyAdDivsArray|;
    }

    /** styleAdDivs, hideNonAdDivs and the hiding of unloaded ads. */
    method StyleAndHide(lay: Layout) returns (emptyAdDivsArray: seq<NodeId>)
      requires Valid() && container.Some?
      modifies this`styled, this`hidden, this`numEmptyAdDivs
      ensures Valid()
      ensures emptyAdDivsArray == EmptyDivs(iframeMap, lay, adInfoArray)
      ensures numEmptyAdDivs == |emptyAdDivsArray|
      ensures styled == old(styled) + DivsOf(adInfoArray)
      ensures hidden == old(hidden) + (set c | c in page.Kids(container.value) && c !in styled)
                      + (set d | d in emptyAdDivsArray)
      ensures forall d | d in emptyAdDivsArray :: d in hidden
      ensures forall c | c in page.Kids(container.value) && c !in styled :: c in hidden
    {
      styled := styled + DivsOf(adInfoArray);
      hidden := hidden + set c | c in page.Kids(container.value) && c !in styled;
      emptyAdDivsArray := FindEmptyAdDivs(lay);
      hidden := hidden + set d | d in emptyAdDivsArray;
    }

    /**
     * Ads.adLoadingComplete: stop the monitor, mark the ad wrappers, hide the
     * rest and the empty ones, and raise `numAds` when more ads are showing
     * than ever before; `notify` is the call into the host.
     */
    method AdLoadingComplete(lay: Layout) returns (notify: bool)
      requires Valid() && container.Some?
      modifies this`state, this`pendingTicks, this`styled, this`hidden, this`numEmptyAdDivs
      modifies this`prevLastAdDiv, this`lastAdDiv, this`numAds
      ensures Valid()
      ensures state == AdsStateAdsLoaded && pendingTicks == old(pendingTicks) - {timeoutId}
      ensures numEmptyAdDivs == |EmptyDivs(iframeMap, lay, adInfoArray)|
      ensures notify <==> numNonEmptyAdDivs - numEmptyAdDivs > old(numAds)
      ensures numAds == if notify then numNonEmptyAdDivs - numEmptyAdDivs else old(numAds)
      ensures styled == old(styled) + DivsOf(adInfoArray)
      ensures forall d | d in EmptyDivs(iframeMap, lay, adInfoArray) :: d in hidden
      ensures forall c | c in page.Kids(container.value) && c !in styled :: c in hidden
      ensures prevLastAdDiv == old(lastAdDiv)
      ensures lastAdDiv == LastAdDiv(page.Kids(container.value), styled, hidden)
    {
      StopMonitorAdLoading();
      var emptyAdDivsArray := StyleAndHide(lay);
      prevLastAdDiv := lastAdDiv;
      lastAdDiv := LastAdDiv(page.Kids(container.value), styled, hidden);
      notify := RaiseAdCount(numNonEmptyAdDivs - |emptyAdDivsArray|);
    }

    /** `stats.numAds` only ever grows: it takes `count` when that is larger, and the host is told. */
    method RaiseAdCount(count: int) returns (notify: bool)
      modifies this`numAds
      ensures notify <==> count > old(numAds)
      ensures numAds == if notify then count else old(numAds)
      ensures numAds >= old(numAds)
    {
      notify := false;
      if count > numAds {
        numAds := count;
        notify := true;
      }
    }

    /**
     * The continuation of the probe round inside adLoadingCheck: rebuild the
     * ad list, retry while a region is empty, otherwise finish loading.
     */
    method AfterIframesLoaded(lay: Layout, scriptErrorFlag: bool, refreshgpt: bool) returns (notify: bool)
      requires Valid() && container.Some?
      modifies this`state, this`pendingTicks, this`styled, this`hidden, this`numEmptyAdDivs,
      this`prevLastAdDiv, this`lastAdDiv, this`numAds, this`adInfoArray, this`numNonEmptyAdDivs,
      this`timeoutId, this`nextTimer, this`elapsedAdLoadTime
      ensures Valid()
      ensures notify <==> numAds > old(numAds)
      ensures adInfoArray == AdDivs(page.kids, page.name, lay, page.Kids(container.value))
      ensures EmptyDivs(iframeMap, lay, adInfoArray) != [] ==>
        && !notify && state == old(state) && timeoutId == old(nextTimer)
        && pendingTicks == old(pendingTicks) + {timeoutId} && numAds == old(numAds)
        && elapsedAdLoadTime == old(elapsedAdLoadTime)
      ensures EmptyDivs(iframeMap, lay, adInfoArray) == [] ==>
        && state == AdsStateAdsLoaded && elapsedAdLoadTime == 0
        && (notify <==> |adInfoArray| > old(numAds))
        && numAds == (if notify then |adInfoArray| else old(numAds))
      ensures numAds >= old(numAds)
    {
      FindAdDivs(lay);
      var emptyAdDivsArray := FindEmptyAdDivs(lay);
      if |emptyAdDivsArray| > 0 {
        ArmTick();
        notify := false;
      } else {
        // The refresh of the ad scripts (reload them when more than half of
        // the regions are empty) sits here; `numEmptyAdDivs` was just set to 0,
        // so its condition never holds and loading always completes.
        assert !scriptErrorFlag && refreshgpt ==> !(2 * numEmptyAdDivs > numNonEmptyAdDivs);
        notify := FinishLoading(lay);
      }
    }

    /** The last step of the check when every region loaded: reset the counter, complete. */
    method FinishLoading(lay: Layout) returns (notify: bool)
      requires Valid() && container.Some? && EmptyDivs(iframeMap, lay, adInfoArray) == []
      modifies this`state, this`pendingTicks, this`styled, this`hidden, this`numEmptyAdDivs,
      this`prevLastAdDiv, this`lastAdDiv, this`numAds, this`elapsedAdLoadTime
      ensures Valid()
      ensures notify <==> numAds > old(numAds)
      ensures state == AdsStateAdsLoaded && elapsedAdLoadTime == 0
      ensures notify <==> |adInfoArray| > old(numAds)
      ensures numAds == if notify then |adInfoArray| else old(numAds)
    {
      elapsedAdLoadTime := 0;
      notify := AdLoadingComplete(lay);
    }

    /** `end()` of checkIframesLoaded: close the round, clear the monitor timer, continue. */
    method EndProbe(lay: Layout, scriptErrorFlag: bool, refreshgpt: bool) returns (notify: bool)
      requires Valid() && container.Some?
      modifies this`state, this`pendingTicks, this`styled, this`hidden, this`numEmptyAdDivs,
      this`prevLastAdDiv, this`lastAdDiv, this`numAds, this`adInfoArray, this`numNonEmptyAdDivs,
      this`timeoutId, this`nextTimer, this`elapsedAdLoadTime, this`probe
      ensures Valid()
      ensures notify <==> numAds > old(numAds)
      ensures probe == None
      ensures adInfoArray == AdDivs(page.kids, page.name, lay, page.Kids(container.value))
      ensures EmptyDivs(iframeMap, lay, adInfoArray) != [] ==>
        !notify && state == old(state) && elapsedAdLoadTime == old(elapsedAdLoadTime)
      ensures EmptyDivs(iframeMap, lay, adInfoArray) == [] ==>
        state == AdsStateAdsLoaded && elapsedAdLoadTime == 0 && (notify <==> numAds > old(numAds))
      ensures numAds >= old(numAds)
    {
      probe := None;
      if timeoutId != 0 {
        pendingTicks := pendingTicks - {timeoutId};
        timeoutId := 0;
      }
      notify := AfterIframesLoaded(lay, scriptErrorFlag, refreshgpt);
    }

    /**
     * checkIframesLoaded: with no iframe in the container the continuation
     * runs at once; otherwise a round opens and the probes go out.
     */
    method CheckIframesLoaded(lay: Layout, scriptErrorFlag: bool, refreshgpt: bool) returns (notify: bool)
      requires Valid() && container.Some?
      modifies this`state, this`pendingTicks, this`styled, this`hidden, this`numEmptyAdDivs,
      this`prevLastAdDiv, this`lastAdDiv, this`numAds, this`adInfoArray, this`numNonEmptyAdDivs,
      this`timeoutId, this`nextTimer, this`elapsedAdLoadTime, this`probe
      ensures Valid()
      ensures notify <==> numAds > old(numAds)
      ensures |lay.iframesIn(container.value)| == 0 ==>
        probe == None && adInfoArray == AdDivs(page.kids, page.name, lay, page.Kids(container.value))
      ensures elapsedAdLoadTime == old(elapsedAdLoadTime) || (elapsedAdLoadTime == 0 && state == AdsStateAdsLoaded)
      ensures |lay.iframesIn(container.value)| > 0 ==>
        && probe == Some(ProbeRound(0)) && !notify && state == old(state)
        && elapsedAdLoadTime == old(elapsedAdLoadTime)
        && adInfoArray == old(adInfoArray) && pendingTicks == old(pendingTicks) && numAds == old(numAds)
      ensures numAds >= old(numAds)
    {
      if |lay.iframesIn(container.value)| == 0 {
        notify := EndProbe(lay, scriptErrorFlag, refreshgpt);
        return;
      }
      probe := Some(ProbeRound(0));
      notify := false;
    }

    /**
     * A probe reply reaching the round's message listener. A "complete" reply
     * is counted and overwrites its window's entry; the round closes when the
     * count equals the number of iframes now in the container.
     */
    method ProbeReply(source: WindowId, readyState: string, width: Dim, height: Dim,
                      lay: Layout, scriptErrorFlag: bool, refreshgpt: bool) returns (notify: bool)
      requires Valid()
      modifies this`state, this`pendingTicks, this`styled, this`hidden, this`numEmptyAdDivs,
      this`prevLastAdDiv, this`lastAdDiv, this`numAds, this`adInfoArray, this`numNonEmptyAdDivs,
      this`timeoutId, this`nextTimer, this`elapsedAdLoadTime, this`probe, this`iframeMap
      ensures Valid()
      ensures notify <==> numAds > old(numAds)
      ensures numAds >= old(numAds)
      ensures old(probe).None? ==>
        && !notify && iframeMap == old(iframeMap) && probe == old(probe)
        && state == old(state) && adInfoArray == old(adInfoArray) && pendingTicks == old(pendingTicks)
      ensures old(probe).Some? ==>
        var counted := old(probe).value.loadedCount + (if readyState == "complete" then 1 else 0);
        && iframeMap == (if readyState == "complete" then old(iframeMap)[source := IframeInfo(width, height)]
                         else old(iframeMap))
        && (counted == |lay.iframesIn(container.value)| ==>
              probe == None && adInfoArray == AdDivs(page.kids, page.name, lay, page.Kids(container.value)))
        && (counted != |lay.iframesIn(container.value)| ==>
              && probe == Some(ProbeRound(counted)) && !notify && state == old(state)
              && adInfoArray == old(adInfoArray) && pendingTicks == old(pendingTicks))
    {
      if probe.None? {
        notify := false;
        return;
      }
      var iframesLoadedCount := probe.value.loadedCount;
      if readyState == "complete" {
        iframesLoadedCount := iframesLoadedCount + 1;
        iframeMap := iframeMap[source := IframeInfo(width, height)];
      }
      probe := Some(ProbeRound(iframesLoadedCount));
      if iframesLoadedCount == |lay.iframesIn(container.value)| {
        notify := EndProbe(lay, scriptErrorFlag, refreshgpt);
      } else {
        notify := false;
      }
    }

    /** The round's 300 ms timer: drop the listener and rearm the monitor; no continuation. */
    method ProbeTimeout()
      requires Valid() && probe.Some?
      modifies this`probe, this`timeoutId, this`pendingTicks, this`nextTimer
      ensures Valid()
      ensures probe == None
      ensures timeoutId == old(nextTimer) && pendingTicks == old(pendingTicks) + {timeoutId}
    {
      probe := None;
      ArmTick();
    }

    /**
     * adLoadingCheck: pending observer records or the dirty flag defer the
     * check to the next tick, clearing the flag; otherwise the probe round runs.
     */
    method AdLoadingCheck(pendingRecords: bool, lay: Layout, scriptErrorFlag: bool, refreshgpt: bool)
      returns (notify: bool)
      requires Valid() && container.Some?
      modifies this`state, this`pendingTicks, this`styled, this`hidden, this`numEmptyAdDivs,
      this`prevLastAdDiv, this`lastAdDiv, this`numAds, this`adInfoArray, this`numNonEmptyAdDivs,
      this`timeoutId, this`nextTimer, this`elapsedAdLoadTime, this`probe, this`dirty
      ensures Valid()
      ensures notify <==> numAds > old(numAds)
      ensures numAds >= old(numAds) && !dirty
      ensures elapsedAdLoadTime == old(elapsedAdLoadTime) || (elapsedAdLoadTime == 0 && state == AdsStateAdsLoaded)
      ensures pendingRecords || old(dirty) ==>
        && !notify && timeoutId == old(nextTimer) && pendingTicks == old(pendingTicks) + {timeoutId}
        && state == old(state) && probe == old(probe) && adInfoArray == old(adInfoArray)
        && elapsedAdLoadTime == old(elapsedAdLoadTime)
      ensures !pendingRecords && !old(dirty) ==>
        && (|lay.iframesIn(container.value)| == 0 ==>
              adInfoArray == AdDivs(page.kids, page.name, lay, page.Kids(container.value)))
        && (|lay.iframesIn(container.value)| > 0 ==> probe == Some(ProbeRound(0)))
    {
      if pendingRecords {
        dirty := true;
      }
      if dirty {
        dirty := false;
        ArmTick();
        notify := false;
        return;
      }
      notify := CheckIframesLoaded(lay, scriptErrorFlag, refreshgpt);
    }

    /**
     * monitorAdLoadingTimeout, fired by timer `t`: count the tick; the first
     * ten ticks of a pass run the check, the eleventh completes loading.
     */
    method MonitorTick(t: nat, pendingRecords: bool, lay: Layout, scriptErrorFlag: bool, refreshgpt: bool)
      returns (checked: bool, notify: bool)
      requires Valid() && t in pendingTicks
      modifies this`state, this`pendingTicks, this`styled, this`hidden, this`numEmptyAdDivs,
      this`prevLastAdDiv, this`lastAdDiv, this`numAds, this`adInfoArray, this`numNonEmptyAdDivs,
      this`timeoutId, this`nextTimer, this`elapsedAdLoadTime, this`probe, this`dirty
      ensures Valid()
      ensures notify <==> numAds > old(numAds)
      ensures numAds >= old(numAds)
      ensures checked <==> old(elapsedAdLoadTime) < MaxAdLoadTicks
      ensures checked ==>
        elapsedAdLoadTime == old(elapsedAdLoadTime) + 1 || (elapsedAdLoadTime == 0 && state == AdsStateAdsLoaded)
      ensures checked && (pendingRecords || old(dirty)) ==>
        elapsedAdLoadTime == old(elapsedAdLoadTime) + 1 && !dirty && !notify && state == old(state)
      ensures !checked ==>
        && elapsedAdLoadTime == 0 && state == AdsStateAdsLoaded
        && adInfoArray == AdDivs(page.kids, page.name, lay, page.Kids(container.value))
    {
      pendingTicks := pendingTicks - {t};
      if elapsedAdLoadTime + 1 <= MaxAdLoadTicks {
        elapsedAdLoadTime := elapsedAdLoadTime + 1;
        checked := true;
        notify := AdLoadingCheck(pendingRecords, lay, scriptErrorFlag, refreshgpt);
      } else {
        checked := false;
        notify := ForceComplete(lay);
      }
    }

    /** The tick past the budget: the counter is reset and loading completes unchecked. */
    method ForceComplete(lay: Layout) returns (notify: bool)
      requires Valid() && container.Some?
      modifies this`state, this`pendingTicks, this`styled, this`hidden, this`numEmptyAdDivs,
      this`prevLastAdDiv, this`lastAdDiv, this`numAds, this`adInfoArray, this`numNonEmptyAdDivs,
      this`elapsedAdLoadTime
      ensures Valid()
      ensures notify <==> numAds > old(numAds)
      ensures numAds >= old(numAds)
      ensures elapsedAdLoadTime == 0 && state == AdsStateAdsLoaded
      ensures adInfoArray == AdDivs(page.kids, page.name, lay, page.Kids(container.value))
    {
      elapsedAdLoadTime := 0;
      FindAdDivs(lay);
      notify := AdLoadingComplete(lay);
    }

    /**
     * moveHiddenElements once the selectors arrive: of the elements the hiding
     * selectors match, those outside the container and inside no other match
     * are moved into the container, in order.
     */
    method MoveHiddenElements(matched: seq<NodeId>) returns (moved: seq<NodeId>)
      requires Valid() && page.Valid() && container.Some?
      modifies this`timeoutId, this`pendingTicks, this`nextTimer, this`state, this`numHiddenElements, page
      ensures Valid() && page.Valid()
      ensures var candidates := OutsideContainer(old(page.name), old(page.parent), old(page.nextId),
                                                container.value, matched);
        moved == TopmostPrefix(candidates, |candidates|, old(page.parent), old(page.nextId))
      ensures numHiddenElements == old(numHiddenElements) + |moved|
      ensures forall n | n in old(page.name) :: n in page.name
      ensures forall x :: x in moved ==> x in matched && !old(page.Contains(container.value, x))
      ensures |moved| > 0 ==> state == AdsStateAdsLoading
      ensures |moved| == 0 ==> state == old(state) && page.kids == old(page.kids)
      ensures page.nextId == old(page.nextId) + |moved|
      ensures page.Kids(container.value) == old(page.Kids(container.value)) + Span(old(page.nextId), |moved|)
      ensures ParentsIn(page.parent, moved, old(page.nextId), |moved|)
      ensures WrappersHold(page.kids, moved, old(page.nextId), |moved|)
    {
      var c := container.value;
      var adNodeArray := OutsideContainer(page.name, page.parent, page.nextId, c, matched);
      moved := TopmostNodes(adNodeArray, page.parent, page.nextId);
      numHiddenElements := numHiddenElements + |moved|;
      ghost var name0, n0, k0 := page.name, page.nextId, page.Kids(c);
      forall x | x in moved ensures x in name0 && x < n0 && x !in k0 && x != c {
        page.KidContained(c, x);
      }
      assert c < n0;
      var i := 0;
      while i < |moved|
        invariant 0 <= i <= |moved|
        invariant Valid() && page.Valid()
        invariant forall n | n in name0 :: n in page.name
        invariant i > 0 ==> state == AdsStateAdsLoading
        invariant i == 0 ==> state == old(state) && page.kids == old(page.kids)
        invariant numHiddenElements == old(numHiddenElements) + |moved|
        invariant page.nextId == n0 + i && page.Kids(c) == k0 + Span(n0, i)
        invariant ParentsIn(page.parent, moved, n0, i) && WrappersHold(page.kids, moved, n0, i)
      {
        WrapNext(moved, i, n0, k0);
        i := i + 1;
      }
    }

    /** One step of moveNodes: the next hidden element goes into the next fresh wrapper. */
    method WrapNext(moved: seq<NodeId>, i: nat, ghost n0: nat, ghost k0: seq<NodeId>)
      requires Valid() && page.Valid() && container.Some? && i < |moved|
      requires forall x | x in moved :: x in page.name && x < n0 && x !in k0 && x != container.value
      requires container.value < n0
      requires page.nextId == n0 + i && page.Kids(container.value) == k0 + Span(n0, i)
      requires ParentsIn(page.parent, moved, n0, i) && WrappersHold(page.kids, moved, n0, i)
      modifies this`timeoutId, this`pendingTicks, this`nextTimer, this`state, page
      ensures Valid() && page.Valid() && state == AdsStateAdsLoading
      ensures page.name == old(page.name)[n0 + i := "DIV"]
      ensures page.nextId == n0 + i + 1 && page.Kids(container.value) == k0 + Span(n0, i + 1)
      ensures ParentsIn(page.parent, moved, n0, i + 1) && WrappersHold(page.kids, moved, n0, i + 1)
    {
      ghost var parent0, kids0 := page.parent, page.kids;
      assert moved[i] in moved && moved[i] !in k0 + Span(n0, i);
      var w := WrapOne(moved[i]);
      StepParents(parent0, page.parent, moved, n0, i, container.value);
      StepWrappers(kids0, page.kids, moved, n0, i, container.value);
    }

    /** insertNewNode for a node that is not a child of the container, with its effects as maps. */
    method WrapOne(x: NodeId) returns (w: NodeId)
      requires Valid() && page.Valid() && container.Some? && x in page.name && x != container.value
      requires x !in page.Kids(container.value)
      modifies this`timeoutId, this`pendingTicks, this`nextTimer, this`state, page
      ensures Valid() && page.Valid() && state == AdsStateAdsLoading
      ensures w == old(page.nextId) && page.nextId == w + 1 && page.name == old(page.name)[w := "DIV"]
      ensures page.Kids(container.value) == old(page.Kids(container.value)) + [w]
      ensures KidsOf(page.kids, w) == [x] && page.parent == old(page.parent)[w := container.value][x := w]
      ensures forall q | q != container.value && q != w :: KidsOf(page.kids, q) == Without(KidsOf(old(page.kids), q), x)
    {
      w := InsertNewNode(x);
      forall q | q != container.value && q != w
        ensures KidsOf(page.kids, q) == Without(KidsOf(old(page.kids), q), x)
      {
        assert page.Kids(q) == Without(old(page.Kids(q)), x);
      }
    }
  }

  /** Each of the first `i` moved nodes sits in the wrapper of its own or of a later position. */
  ghost predicate ParentsIn(parent: map<NodeId, NodeId>, moved: seq<NodeId>, n0: nat, i: nat)
    requires i <= |moved|
  {
    forall j | 0 <= j < i :: moved[j] in parent && n0 + j <= parent[moved[j]] < n0 + i
  }

  /** The wrapper of position `j` holds `moved[j]`, or nothing once a later position took it. */
  ghost predicate WrappersHold(kids: map<NodeId, seq<NodeId>>, moved: seq<NodeId>, n0: nat, i: nat)
    requires i <= |moved|
  {
    forall j | 0 <= j < i :: KidsOf(kids, n0 + j) == if moved[j] in moved[j + 1..i] then [] else [moved[j]]
  }

  lemma StepParents(parent0: map<NodeId, NodeId>, parent1: map<NodeId, NodeId>, moved: seq<NodeId>,
                    n0: nat, i: nat, c: NodeId)
    requires i < |moved| && ParentsIn(parent0, moved, n0, i)
    requires forall x | x in moved :: x < n0
    requires parent1 == parent0[n0 + i := c][moved[i] := n0 + i]
    ensures ParentsIn(parent1, moved, n0, i + 1)
  {
    forall j | 0 <= j < i + 1 ensures moved[j] in parent1 && n0 + j <= parent1[moved[j]] < n0 + i + 1 {
      if j < i && moved[j] != moved[i] {
        assert moved[j] in parent0 && n0 + j <= parent0[moved[j]] < n0 + i;
        assert moved[j] in moved;
      }
    }
  }

  lemma StepWrappers(kids0: map<NodeId, seq<NodeId>>, kids1: map<NodeId, seq<NodeId>>, moved: seq<NodeId>,
                     n0: nat, i: nat, c: NodeId)
    requires i < |moved| && WrappersHold(kids0, moved, n0, i) && c < n0
    requires KidsOf(kids1, n0 + i) == [moved[i]]
    requires forall q :: q != c && q != n0 + i ==> KidsOf(kids1, q) == Without(KidsOf(kids0, q), moved[i])
    ensures WrappersHold(kids1, moved, n0, i + 1)
  {
    forall j | 0 <= j < i
      ensures KidsOf(kids1, n0 + j) == if moved[j] in moved[j + 1..i + 1] then [] else [moved[j]]
    {
      assert moved[j + 1..i + 1] == moved[j + 1..i] + [moved[i]];
      assert KidsOf(kids1, n0 + j) == Without(KidsOf(kids0, n0 + j), moved[i]);
    }
    assert moved[i + 1..i + 1] == [];
  }

  // ---------------------------------------------------------------------
  // The element a late request relocates

  /** The lookup as written in insertNewNodeDynamic: by resource type, not by tag. */
  function DynamicTargetAsWritten(view: seq<Elem>, info: NodeInfo): Option<NodeId>
  {
    FindNode(view, info.kind, info.url)
  }

  /** The lookup by the request's tag name, as processNodeQueue does it. */
  function DynamicTarget(view: seq<Elem>, info: NodeInfo): Option<NodeId>
  {
    FindNode(view, info.tagType, info.url)
  }

  /**
   * As written, a late iframe request is looked up under the element name
   * "SUBDOCUMENT", so the iframe that carries its url is never relocated;
   * the lookup by tag name finds it.
   */
  lemma DynamicTargetAsWrittenMissesIframe()
    ensures var url := "https://ads.example/slot";
      var view := [Elem(7, "IFRAME", url, false)];
      var info := NodeInfo("SUBDOCUMENT", "iframe", url);
      DynamicTargetAsWritten(view, info) == None && DynamicTarget(view, info) == Some(7)
  {
    var url := "https://ads.example/slot";
    var view := [Elem(7, "IFRAME", url, false)];
    UpperTags();
    assert Upper("SUBDOCUMENT") == "SUBDOCUMENT";
    FindNodeUnfold(view, "SUBDOCUMENT", url);
    FindNodeUnfold(view, "iframe", url);
    assert view[1..] == [];
  }

  /**
   * As written, a request whose kind is not itself an element name present
   * on the page (SUBDOCUMENT, IMAGE) is never relocated.
   */
  lemma DynamicTargetAsWrittenNeverFinds(view: seq<Elem>, info: NodeInfo)
    requires forall i :: 0 <= i < |view| ==> view[i].name != Upper(info.kind)
    ensures DynamicTargetAsWritten(view, info) == None
  {
    FindNodeSpec(view, info.kind, info.url);
  }

  /**
   * The lookup by tag name relocates the first element, in document order,
   * with the request's tag and url outside the container, and finds one
   * whenever such an element exists.
   */
  lemma DynamicTargetSpec(view: seq<Elem>, info: NodeInfo)
    ensures DynamicTarget(view, info).None? <==>
      forall i :: 0 <= i < |view| ==> !Qualifies(view[i], info.tagType, info.url)
    ensures DynamicTarget(view, info).Some? ==>
      exists i :: 0 <= i < |view| && view[i].id == DynamicTarget(view, info).value &&
        view[i].name == Upper(info.tagType) && view[i].src == info.url && !view[i].inContainer &&
        forall j :: 0 <= j < i ==> !Qualifies(view[j], info.tagType, info.url)
  {
    FindNodeSpec(view, info.tagType, info.url);
  }
}
