/**
 * The blocked-node admission queue: requests blocked before the window loaded
 * are replayed one at a time into the ad container. Script and iframe entries
 * wait for their node's load or error event; the other kinds advance at once.
 * Also the `document.write` bridge and the one-shot script-error handling.
 */
module NodeQueue {
  import opened Dom
  import opened Utils
  import opened Ads
  import opened Session

  /** Extension resources injected into the page, by their path inside the extension. */
  const OverrideDocWriteScript := "/adsidebar/resources/overridedocwrite.js"
  const OverrideJqueryReadyScript := "/adsidebar/resources/overridejqueryready.js"
  const RefreshGptScript := "/adsidebar/resources/refreshgpt.js"

  // ---------------------------------------------------------------------
  // What one processNodeQueue call does to the queue

  /** Entries whose admission waits for the new node's load or error event. */
  predicate Waits(kind: string)
  {
    kind == "SCRIPT" || kind == "SUBDOCUMENT"
  }

  /** How many entries one processNodeQueue call takes off the queue `q`. */
  function Drained(q: seq<NodeInfo>): (k: nat)
    ensures k <= |q|
  {
    if q == [] then 0
    else if Waits(q[0].kind) then 1
    else 1 + Drained(q[1..])
  }

  /** Whether one processNodeQueue call reaches the end of `q` and reports completion. */
  predicate RunsDry(q: seq<NodeInfo>)
  {
    forall i :: 0 <= i < |q| ==> !Waits(q[i].kind)
  }

  /**
   * One call drains the entries up to and including the first that waits;
   * it drains the whole queue exactly when no entry waits.
   */
  lemma {:induction false} DrainedSpec(q: seq<NodeInfo>)
    ensures RunsDry(q) ==> Drained(q) == |q|
    ensures !RunsDry(q) ==>
      && 0 < Drained(q) && Waits(q[Drained(q) - 1].kind)
      && forall i :: 0 <= i < Drained(q) - 1 ==> !Waits(q[i].kind)
  {
    if q != [] {
      DrainedSpec(q[1..]);
      if !Waits(q[0].kind) {
        assert RunsDry(q) <==> RunsDry(q[1..]) by {
          if RunsDry(q[1..]) {
            forall i | 0 <= i < |q| ensures !Waits(q[i].kind) {
              if i > 0 { assert q[i] == q[1..][i - 1]; }
            }
          }
          if RunsDry(q) {
            forall i | 0 <= i < |q[1..]| ensures !Waits(q[1..][i].kind) {
              assert q[1..][i] == q[i + 1];
            }
          }
        }
        if !RunsDry(q) {
          var k := Drained(q[1..]);
          assert q[k] == q[1..][k - 1];
          forall i | 0 <= i < k ensures !Waits(q[i].kind) {
            if i > 0 { assert q[i] == q[1..][i - 1]; }
          }
        }
      }
    }
  }

  // ---------------------------------------------------------------------
  // The document.write buffer

  /** The buffer after one notification, and the nodes the notification inserts. */
  datatype Flush = Flush(buffer: string, batch: seq<Parsed>)

  /**
   * One `document.write` notification: the payload is appended to the buffer;
   * when the buffer parses into at least one node it is emptied and its nodes
   * are inserted, otherwise it is kept for the next notification.
   */
  function DocWriteStep(buffer: string, str: string, parse: string -> seq<Parsed>): Flush
  {
    var text := buffer + str;
    if |parse(text)| == 0 then Flush(text, []) else Flush("", parse(text))
  }

  function Concat(ss: seq<string>): string
  {
    if ss == [] then "" else ss[0] + Concat(ss[1..])
  }

  /** The texts inserted, in order, and the final buffer, after notifications `strs`. */
  function Feed(buffer: string, strs: seq<string>, parse: string -> seq<Parsed>): (string, seq<string>)
    decreases |strs|
  {
    if strs == [] then (buffer, [])
    else
      var step := DocWriteStep(buffer, strs[0], parse);
      var rest := Feed(step.buffer, strs[1..], parse);
      (rest.0, (if |step.batch| > 0 then [buffer + strs[0]] else []) + rest.1)
  }

  /**
   * No written character is lost or repeated: the starting buffer and every
   * payload, in order, are exactly the texts inserted followed by what is
   * still buffered.
   */
  lemma {:induction false} FeedConserves(buffer: string, strs: seq<string>, parse: string -> seq<Parsed>)
    ensures buffer + Concat(strs) == Concat(Feed(buffer, strs, parse).1) + Feed(buffer, strs, parse).0
    decreases |strs|
  {
    if strs == [] {
      assert buffer + Concat(strs) == buffer;
    } else {
      var step := DocWriteStep(buffer, strs[0], parse);
      var rest := Feed(step.buffer, strs[1..], parse);
      var c := Concat(strs[1..]);
      FeedConserves(step.buffer, strs[1..], parse);
      assert Concat(strs) == strs[0] + c;
      if |step.batch| > 0 {
        assert step.buffer == "" && "" + c == c;
        assert Feed(buffer, strs, parse) == (rest.0, [buffer + strs[0]] + rest.1);
        ConcatCons(buffer + strs[0], rest.1);
        Regroup(buffer, strs[0], c, Concat(rest.1), rest.0);
      } else {
        assert step.buffer == buffer + strs[0];
        assert Feed(buffer, strs, parse) == (rest.0, [] + rest.1);
        assert [] + rest.1 == rest.1;
        StringAssoc(buffer, strs[0], c);
      }
    }
  }

  lemma StringAssoc(a: string, b: string, c: string)
    ensures a + (b + c) == (a + b) + c
  {
  }

  /** String concatenation regrouped. */
  lemma Regroup(a: string, b: string, c: string, d: string, e: string)
    requires c == d + e
    ensures a + (b + c) == ((a + b) + d) + e
  {
  }

  lemma ConcatCons(t: string, ss: seq<string>)
    ensures Concat([t] + ss) == t + Concat(ss)
  {
    assert ([t] + ss)[1..] == ss;
  }

  /** Every text inserted parses into at least one node. */
  lemma {:induction false} FeedInsertsParsed(buffer: string, strs: seq<string>, parse: string -> seq<Parsed>)
    ensures forall t :: t in Feed(buffer, strs, parse).1 ==> |parse(t)| > 0
    decreases |strs|
  {
    if strs != [] {
      var step := DocWriteStep(buffer, strs[0], parse);
      FeedInsertsParsed(step.buffer, strs[1..], parse);
    }
  }

  /** Starting from an empty or unparseable buffer, what stays buffered is empty or does not parse. */
  lemma {:induction false} FeedKeepsUnparsed(buffer: string, strs: seq<string>, parse: string -> seq<Parsed>)
    requires buffer == "" || |parse(buffer)| == 0
    ensures Feed(buffer, strs, parse).0 == "" || |parse(Feed(buffer, strs, parse).0)| == 0
    decreases |strs|
  {
    if strs != [] {
      var step := DocWriteStep(buffer, strs[0], parse);
      FeedKeepsUnparsed(step.buffer, strs[1..], parse);
    }
  }

  // ---------------------------------------------------------------------
  // Listeners

  /** nodeRemoveEventListeners, applied to the armed node. */
  method NodeRemoveEventListeners(s: Session, node: NodeId)
    requires s.Valid() && s.lastScriptNode == Some(node)
    modifies s`armed, s`lastScriptNode
    ensures s.Valid()
    ensures s.armed == old(s.armed) - {node} == {} && s.lastScriptNode == None
  {
    s.armed := s.armed - {node};
    s.lastScriptNode := None;
  }

  /** nodeAddEventListeners: disarm the previous node, then arm `node` alone. */
  method NodeAddEventListeners(s: Session, node: NodeId)
    requires s.Valid() && node in s.page.name && s.ads.container.Some?
    modifies s`armed, s`lastScriptNode
    ensures s.Valid()
    ensures s.lastScriptNode == Some(node) && s.armed == {node}
    ensures forall x :: x in old(s.armed) && x != node ==> x !in s.armed
  {
    if s.lastScriptNode.Some? {
      NodeRemoveEventListeners(s, s.lastScriptNode.value);
    }
    s.lastScriptNode := Some(node);
    s.armed := s.armed + {node};
  }

  /**
   * The nodes still listening after arming `node`, as the removal is written:
   * `removeEventListener` is handed the unbound handlers, which were never
   * attached, so the bound handlers on earlier nodes stay in place.
   */
  function ListeningAsWritten(listening: set<NodeId>, node: NodeId): set<NodeId>
  {
    listening + {node}
  }

  /**
   * As written, arming an iframe and then a script leaves both listening: a
   * second load of the iframe (a navigation inside it) advances the queue
   * while the script is still pending. Arming keeps exactly one.
   */
  lemma ListeningAsWrittenKeepsStale(iframe: NodeId, script: NodeId)
    requires iframe != script
    ensures ListeningAsWritten(ListeningAsWritten({}, iframe), script) == {iframe, script}
    ensures |ListeningAsWritten(ListeningAsWritten({}, iframe), script)| == 2
  {
    assert {iframe, script} == {iframe} + {script};
  }

  // ---------------------------------------------------------------------
  // Admitting one entry

  /**
   * The document half of a SCRIPT entry: a new script with the entry's url,
   * inside a new div, which goes into the container inside its own wrapper.
   */
  method PlaceScript(ads: AdManager, url: string) returns (script: NodeId, div: NodeId)
    requires ads.Valid() && ads.page.Valid() && ads.container.Some?
    modifies ads`timeoutId, ads`pendingTicks, ads`nextTimer, ads`state, ads.page
    ensures ads.Valid() && ads.page.Valid()
    ensures script == old(ads.page.nextId) && div == script + 1 && ads.page.nextId == div + 2
    ensures ads.page.name == old(ads.page.name)[script := "SCRIPT"][div := "DIV"][div + 1 := "DIV"]
    ensures SrcOf(ads.page.src, script) == url
    ensures ads.page.Kids(div) == [script] && ads.page.Kids(div + 1) == [div]
    ensures ads.page.Kids(ads.container.value) == old(ads.page.Kids(ads.container.value)) + [div + 1]
    ensures ads.state == AdsStateAdsLoading
  {
    var page := ads.page;
    var c := ads.container.value;
    script := page.CreateWithSrc("script", url);
    div := page.CreateElement("div");
    UpperTags();
    page.Attach(div, script);
    assert div !in page.parent;
    assert div !in page.Kids(c);
    var w := ads.InsertNewNode(div);
  }

  /**
   * A SCRIPT entry: the script made by `PlaceScript` is armed, its div becomes
   * the current script div, and the queue waits for the script. (The source
   * arms the script before it is attached; nothing observes the difference.)
   */
  method AdmitScript(s: Session, info: NodeInfo) returns (script: NodeId, div: NodeId)
    requires s.Valid() && s.ads.container.Some?
    modifies s`lastScriptNode, s`armed, s`currentScriptDiv
    modifies s.ads`timeoutId, s.ads`pendingTicks, s.ads`nextTimer, s.ads`state, s.page
    ensures s.Valid()
    ensures script == old(s.page.nextId) && div == script + 1 && script !in old(s.page.name)
    ensures NameOf(s.page.name, script) == "SCRIPT" && SrcOf(s.page.src, script) == info.url
    ensures NameOf(s.page.name, div) == "DIV"
    ensures s.page.Kids(div) == [script] && s.page.Kids(div + 1) == [div]
    ensures s.page.Kids(s.ads.container.value) == old(s.page.Kids(s.ads.container.value)) + [div + 1]
    ensures s.currentScriptDiv == Some(div) && s.lastScriptNode == Some(script) && s.armed == {script}
    ensures s.ads.state == AdsStateAdsLoading
  {
    script, div := PlaceScript(s.ads, info.url);
    s.currentScriptDiv := Some(div);
    NodeAddEventListeners(s, script);
  }

  /**
   * The element findNode returns is a known element with the requested `src`,
   * outside the container and so not among its children.
   */
  lemma FoundOutside(page: Page, order: seq<NodeId>, c: NodeId, tagType: string, url: string)
    requires page.Valid()
    ensures var found := FindNode(page.View(order, Some(c)), tagType, url);
      found.Some? ==>
        && found.value in page.name && found.value != c && SrcOf(page.src, found.value) == url
        && !page.Contains(c, found.value) && found.value !in page.Kids(c)
  {
    var view := page.View(order, Some(c));
    var found := FindNode(view, tagType, url);
    if found.Some? {
      FindNodeSpec(view, tagType, url);
      page.ViewSpec(order, Some(c));
      var i :| 0 <= i < |view| && Qualifies(view[i], tagType, url) && view[i].id == found.value;
      assert page.ElemOk(view[i], Some(c));
      page.KidContained(c, found.value);
    }
  }

  /**
   * The document half of a SUBDOCUMENT entry: the iframe `findNode` returns,
   * or else a new iframe with the entry's url, is moved into the container.
   */
  method PlaceSubdocument(ads: AdManager, info: NodeInfo, order: seq<NodeId>) returns (node: NodeId)
    requires ads.Valid() && ads.page.Valid() && ads.container.Some?
    modifies ads`timeoutId, ads`pendingTicks, ads`nextTimer, ads`state, ads.page
    ensures ads.Valid() && ads.page.Valid()
    ensures var found := FindNode(old(ads.page.View(order, ads.container)), info.tagType, info.url);
      && (found.Some? ==> node == found.value && !old(ads.page.Contains(ads.container.value, node)))
      && (found.None? ==> node == old(ads.page.nextId) && NameOf(ads.page.name, node) == "IFRAME")
    ensures SrcOf(ads.page.src, node) == info.url
    ensures node in ads.page.name && forall n :: n in old(ads.page.name) ==> n in ads.page.name
    ensures node in ads.page.parent && ads.page.Kids(ads.page.parent[node]) == [node]
    ensures ads.page.parent[node] !in old(ads.page.name) && node !in old(ads.page.Kids(ads.container.value))
    ensures ads.page.Kids(ads.container.value) == old(ads.page.Kids(ads.container.value)) + [ads.page.parent[node]]
    ensures ads.state == AdsStateAdsLoading
  {
    var view := ads.page.View(order, ads.container);
    var found := FindNode(view, info.tagType, info.url);
    if found.Some? {
      FoundOutside(ads.page, order, ads.container.value, info.tagType, info.url);
      node := found.value;
    } else {
      node := ads.page.CreateWithSrc("iframe", info.url);
      UpperTags();
    }
    var w := ads.InsertNewNode(node);
  }

  /**
   * A SUBDOCUMENT entry: the iframe placed by `PlaceSubdocument` is armed and
   * the queue waits for it.
   */
  method AdmitSubdocument(s: Session, info: NodeInfo, order: seq<NodeId>) returns (node: NodeId)
    requires s.Valid() && s.ads.container.Some?
    modifies s`lastScriptNode, s`armed
    modifies s.ads`timeoutId, s.ads`pendingTicks, s.ads`nextTimer, s.ads`state, s.page
    ensures s.Valid()
    ensures var found := FindNode(old(s.page.View(order, s.ads.container)), info.tagType, info.url);
      && (found.Some? ==> node == found.value && !old(s.page.Contains(s.ads.container.value, node)))
      && (found.None? ==> node == old(s.page.nextId) && NameOf(s.page.name, node) == "IFRAME")
    ensures SrcOf(s.page.src, node) == info.url
    ensures node in s.page.parent && s.page.Kids(s.page.parent[node]) == [node]
    ensures s.page.parent[node] !in old(s.page.name)
    ensures s.page.Kids(s.ads.container.value) == old(s.page.Kids(s.ads.container.value)) + [s.page.parent[node]]
    ensures s.lastScriptNode == Some(node) && s.armed == {node}
    ensures s.ads.state == AdsStateAdsLoading
  {
    node := PlaceSubdocument(s.ads, info, order);
    NodeAddEventListeners(s, node);
  }

  /**
   * A SUBDOCUMENT entry as written. When no iframe is found, the new iframe
   * is declared in an inner scope, so insertNewNode receives the outer, empty
   * variable: it restarts the monitor and appends an empty wrapper to the
   * container, then fails on the missing node's parent. The armed iframe
   * is left in no document, so it never loads and the queue never advances.
   * When an iframe is found, this is `AdmitSubdocument`.
   */
  method AdmitSubdocumentAsWritten(s: Session, info: NodeInfo, order: seq<NodeId>) returns (node: NodeId)
    requires s.Valid() && s.ads.container.Some?
    modifies s`lastScriptNode, s`armed
    modifies s.ads`timeoutId, s.ads`pendingTicks, s.ads`nextTimer, s.ads`state, s.page
    ensures s.Valid()
    ensures var found := FindNode(old(s.page.View(order, s.ads.container)), info.tagType, info.url);
      && (found.Some? ==> node == found.value && node in s.page.parent
                          && s.page.Kids(s.ads.container.value) ==
                             Without(old(s.page.Kids(s.ads.container.value)), node) + [s.page.parent[node]])
      && (found.None? ==> node == old(s.page.nextId) && NameOf(s.page.name, node) == "IFRAME"
                          && SrcOf(s.page.src, node) == info.url
                          && node !in s.page.parent
                          && s.page.Kids(s.ads.container.value) == old(s.page.Kids(s.ads.container.value)) + [node + 1]
                          && s.page.Kids(node + 1) == [])
    ensures s.lastScriptNode == Some(node) && s.armed == {node}
    ensures s.ads.state == AdsStateAdsLoading
  {
    var view := s.page.View(order, s.ads.container);
    var found := FindNode(view, info.tagType, info.url);
    if found.Some? {
      node := AdmitSubdocument(s, info, order);
    } else {
      node := ArmDetachedIframe(s, info.url);
    }
  }

  /** The not-found branch as written: the new iframe is armed, the container gets an empty wrapper. */
  method ArmDetachedIframe(s: Session, url: string) returns (node: NodeId)
    requires s.Valid() && s.ads.container.Some?
    modifies s`lastScriptNode, s`armed
    modifies s.ads`timeoutId, s.ads`pendingTicks, s.ads`nextTimer, s.ads`state, s.page
    ensures s.Valid()
    ensures node == old(s.page.nextId) && NameOf(s.page.name, node) == "IFRAME" && SrcOf(s.page.src, node) == url
    ensures node !in s.page.parent
    ensures s.page.Kids(s.ads.container.value) == old(s.page.Kids(s.ads.container.value)) + [node + 1]
    ensures s.page.Kids(node + 1) == []
    ensures s.lastScriptNode == Some(node) && s.armed == {node}
    ensures s.ads.state == AdsStateAdsLoading
  {
    var c := s.ads.container.value;
    node := s.page.CreateWithSrc("iframe", url);
    UpperTags();
    NodeAddEventListeners(s, node);
    s.ads.KickMonitor();
    var adDiv := s.page.AppendNew(c, "div", "");
  }

  /**
   * Any other entry: the element `findNode` returns is reused (an image gets
   * "?adsidebar" appended to its `src`, so that it reloads), or else a new
   * element of the entry's tag with its url is created; either is moved into
   * the container, and the queue goes on without waiting.
   */
  method AdmitOther(ads: AdManager, info: NodeInfo, order: seq<NodeId>) returns (node: NodeId)
    requires ads.Valid() && ads.page.Valid() && ads.container.Some?
    modifies ads`timeoutId, ads`pendingTicks, ads`nextTimer, ads`state, ads.page
    ensures ads.Valid() && ads.page.Valid()
    ensures var found := FindNode(old(ads.page.View(order, ads.container)), info.tagType, info.url);
      && (found.Some? ==> node == found.value && !old(ads.page.Contains(ads.container.value, node)))
      && (found.None? ==> node == old(ads.page.nextId) && NameOf(ads.page.name, node) == Upper(info.tagType))
    ensures SrcOf(ads.page.src, node) == if info.kind == "IMAGE" && node in old(ads.page.name)
      then info.url + "?adsidebar" else info.url
    ensures forall n :: n in old(ads.page.name) ==> n in ads.page.name
    ensures node in ads.page.parent && ads.page.Kids(ads.page.parent[node]) == [node]
    ensures ads.page.parent[node] !in old(ads.page.name)
    ensures ads.page.Kids(ads.container.value) == old(ads.page.Kids(ads.container.value)) + [ads.page.parent[node]]
    ensures ads.state == AdsStateAdsLoading
  {
    node := PickOther(ads, info, order);
    var w := ads.InsertNewNode(node);
  }

  /** The element an entry of another kind uses: found and, for an image, made to reload; or created. */
  method PickOther(ads: AdManager, info: NodeInfo, order: seq<NodeId>) returns (node: NodeId)
    requires ads.Valid() && ads.page.Valid() && ads.container.Some?
    modifies ads.page
    ensures ads.Valid() && ads.page.Valid()
    ensures var found := FindNode(old(ads.page.View(order, ads.container)), info.tagType, info.url);
      && (found.Some? ==> node == found.value && !old(ads.page.Contains(ads.container.value, node)))
      && (found.None? ==> node == old(ads.page.nextId) && NameOf(ads.page.name, node) == Upper(info.tagType))
    ensures SrcOf(ads.page.src, node) == if info.kind == "IMAGE" && node in old(ads.page.name)
      then info.url + "?adsidebar" else info.url
    ensures node in ads.page.name && node != ads.container.value && node !in ads.page.Kids(ads.container.value)
    ensures forall n :: n in old(ads.page.name) ==> n in ads.page.name
    ensures old(ads.page.nextId) <= ads.page.nextId
    ensures ads.page.Kids(ads.container.value) == old(ads.page.Kids(ads.container.value))
  {
    var view := ads.page.View(order, ads.container);
    var found := FindNode(view, info.tagType, info.url);
    if found.None? {
      node := ads.page.CreateWithSrc(info.tagType, info.url);
    } else {
      FoundOutside(ads.page, order, ads.container.value, info.tagType, info.url);
      node := found.value;
      if info.kind == "IMAGE" {
        ads.page.SetSrc(node, SrcOf(ads.page.src, node) + "?adsidebar");
      }
    }
  }

  // ---------------------------------------------------------------------
  // Script-error handling

  /** getElementsByTagName("script") filtered to the scripts without `src`, in document order. */
  function InlineScripts(view: seq<Elem>): seq<NodeId>
  {
    if view == [] then []
    else (if view[0].name == "SCRIPT" && view[0].src == "" then [view[0].id] else []) + InlineScripts(view[1..])
  }

  /** The scripts collected are exactly the listed SCRIPT elements without `src`, at most one per element. */
  lemma {:induction false} InlineScriptsSpec(view: seq<Elem>)
    ensures |InlineScripts(view)| <= |view|
    ensures forall x :: x in InlineScripts(view) <==>
      exists k :: 0 <= k < |view| && view[k].id == x && view[k].name == "SCRIPT" && view[k].src == ""
  {
    if view != [] {
      InlineScriptsSpec(view[1..]);
      assert forall k :: 0 <= k < |view[1..]| ==> view[1..][k] == view[k + 1];
      forall x | exists k :: 0 <= k < |view| && view[k].id == x && view[k].name == "SCRIPT" && view[k].src == ""
        ensures x in InlineScripts(view)
      {
        var k :| 0 <= k < |view| && view[k].id == x && view[k].name == "SCRIPT" && view[k].src == "";
        if k > 0 {
          assert view[1..][k - 1] == view[k];
        }
      }
    }
  }

  /** The wrappers `m` re-run scripts get, when the first script takes identity `n0`. */
  function RerunWrappers(n0: nat, m: nat): (r: seq<NodeId>)
    ensures |r| == m
  {
    if m == 0 then [] else RerunWrappers(n0, m - 1) + [n0 + 2 * (m - 1) + 1]
  }

  /** Script `j` takes identity `n0 + 2j` and sits in the wrapper `n0 + 2j + 1`, the `j`-th one appended. */
  lemma {:induction false} RerunWrappersSpec(n0: nat, m: nat)
    ensures forall j :: 0 <= j < m ==> RerunWrappers(n0, m)[j] == n0 + 2 * j + 1
  {
    if m > 0 {
      RerunWrappersSpec(n0, m - 1);
      var r := RerunWrappers(n0, m);
      assert r == RerunWrappers(n0, m - 1) + [n0 + 2 * (m - 1) + 1];
    }
  }

  /** One re-run script: a fresh script element without `src`, inserted into the container. */
  method RerunOne(ads: AdManager) returns (script: NodeId, w: NodeId)
    requires ads.Valid() && ads.page.Valid() && ads.container.Some?
    modifies ads`timeoutId, ads`pendingTicks, ads`nextTimer, ads`state, ads.page
    ensures ads.Valid() && ads.page.Valid()
    ensures script == old(ads.page.nextId) && w == script + 1 && ads.page.nextId == script + 2
    ensures ads.page.name == old(ads.page.name)[script := "SCRIPT"][w := "DIV"]
    ensures ads.page.src == old(ads.page.src)[script := ""][w := ""]
    ensures ads.page.Kids(ads.container.value) == old(ads.page.Kids(ads.container.value)) + [w]
    ensures ads.page.Kids(w) == [script]
    ensures forall q :: q != ads.container.value && q != w ==> ads.page.Kids(q) == old(ads.page.Kids(q))
    ensures ads.state == AdsStateAdsLoading
  {
    var page := ads.page;
    var c := ads.container.value;
    script := page.CreateElement("script");
    UpperTags();
    assert script !in page.parent;
    assert script !in page.Kids(c);
    assert forall q :: q != script ==> page.Kids(q) == old(page.Kids(q));
    assert old(page.Kids(script)) == [] == page.Kids(script);
    w := ads.InsertNewNode(script);
  }

  /** Node `n` is a re-run script: a script without `src`, alone in the wrapper `n + 1`. */
  ghost predicate RerunIn(name: map<NodeId, string>, src: map<NodeId, string>, kids: map<NodeId, seq<NodeId>>, n: NodeId)
  {
    NameOf(name, n) == "SCRIPT" && SrcOf(src, n) == "" && KidsOf(kids, n + 1) == [n]
  }

  ghost predicate Rerun(page: Page, n: NodeId)
    reads page
  {
    RerunIn(page.name, page.src, page.kids, n)
  }

  /** One more re-run, at `n0 + 2i` in the wrapper `n0 + 2i + 1`, keeps the earlier ones. */
  lemma RerunsKept(name: map<NodeId, string>, src: map<NodeId, string>, kids: map<NodeId, seq<NodeId>>,
                   name': map<NodeId, string>, src': map<NodeId, string>, kids': map<NodeId, seq<NodeId>>,
                   n0: nat, i: nat, c: NodeId)
    requires c < n0
    requires forall j :: 0 <= j < i ==> RerunIn(name, src, kids, n0 + 2 * j)
    requires name' == name[n0 + 2 * i := "SCRIPT"][n0 + 2 * i + 1 := "DIV"]
    requires src' == src[n0 + 2 * i := ""][n0 + 2 * i + 1 := ""]
    requires KidsOf(kids', n0 + 2 * i + 1) == [n0 + 2 * i]
    requires forall q :: q != c && q != n0 + 2 * i + 1 ==> KidsOf(kids', q) == KidsOf(kids, q)
    ensures forall j :: 0 <= j < i + 1 ==> RerunIn(name', src', kids', n0 + 2 * j)
  {
    forall j | 0 <= j < i + 1 ensures RerunIn(name', src', kids', n0 + 2 * j) {
      if j < i {
        assert RerunIn(name, src, kids, n0 + 2 * j);
      }
    }
  }

  /** A fresh script element for each inline script, each inserted into the container. */
  method RerunScripts(ads: AdManager, scripts: seq<NodeId>)
    requires ads.Valid() && ads.page.Valid() && ads.container.Some?
    modifies ads`timeoutId, ads`pendingTicks, ads`nextTimer, ads`state, ads.page
    ensures ads.Valid() && ads.page.Valid()
    ensures ads.page.nextId == old(ads.page.nextId) + 2 * |scripts|
    ensures ads.page.Kids(ads.container.value) ==
      old(ads.page.Kids(ads.container.value)) + RerunWrappers(old(ads.page.nextId), |scripts|)
    ensures forall j :: 0 <= j < |scripts| ==> Rerun(ads.page, old(ads.page.nextId) + 2 * j)
    ensures forall n :: n in old(ads.page.name) ==> n in ads.page.name
    ensures |scripts| == 0 ==> ads.page.kids == old(ads.page.kids) && ads.state == old(ads.state)
  {
    var page := ads.page;
    var c := ads.container.value;
    ghost var n0 := page.nextId;
    ghost var kids0 := page.Kids(c);
    for i := 0 to |scripts|
      invariant ads.Valid() && page.Valid()
      invariant RerunProgress(ads, n0, kids0, i)
      invariant forall n :: n in old(page.name) ==> n in page.name
      invariant i == 0 ==> page.kids == old(page.kids) && ads.state == old(ads.state)
    {
      RerunNext(ads, n0, kids0, i);
    }
  }

  /** After `i` re-runs starting at identity `n0`, on a container that had children `kids0`. */
  ghost predicate RerunProgress(ads: AdManager, n0: nat, kids0: seq<NodeId>, i: nat)
    reads ads, ads.page
  {
    && ads.container.Some?
    && ads.page.nextId == n0 + 2 * i
    && ads.page.Kids(ads.container.value) == kids0 + RerunWrappers(n0, i)
    && forall j :: 0 <= j < i ==> Rerun(ads.page, n0 + 2 * j)
  }

  /** One iteration of the re-run loop. */
  method RerunNext(ads: AdManager, ghost n0: nat, ghost kids0: seq<NodeId>, ghost i: nat)
    requires ads.Valid() && ads.page.Valid() && ads.container.Some?
    requires ads.container.value < n0 && RerunProgress(ads, n0, kids0, i)
    modifies ads`timeoutId, ads`pendingTicks, ads`nextTimer, ads`state, ads.page
    ensures ads.Valid() && ads.page.Valid() && RerunProgress(ads, n0, kids0, i + 1)
    ensures forall n :: n in old(ads.page.name) ==> n in ads.page.name
  {
    var page := ads.page;
    var c := ads.container.value;
    ghost var wrappers := page.Kids(c);
    var script, w := RerunOne(ads);
    forall q | q != c && q != w ensures KidsOf(page.kids, q) == KidsOf(old(page.kids), q) {
      assert page.Kids(q) == old(page.Kids(q));
    }
    RerunsKept(old(page.name), old(page.src), old(page.kids), page.name, page.src, page.kids, n0, i, c);
    assert page.Kids(c) == wrappers + [w];
    AppendAssoc(kids0, RerunWrappers(n0, i), [w]);
  }

  /** The children the script-error continuation appends to the container. */
  function ContinuationKids(n0: nat, m: nat, refresh: bool): seq<NodeId>
  {
    if refresh then RerunWrappers(n0, m) + [n0 + 2 * m] else RerunWrappers(n0, m)
  }

  /** With `runlocalscripts`, re-run every inline script of the document (`order` is the document order). */
  method RerunInlineScripts(ads: AdManager, runlocalscripts: bool, order: seq<NodeId>) returns (m: nat)
    requires ads.Valid() && ads.page.Valid() && ads.container.Some?
    modifies ads`timeoutId, ads`pendingTicks, ads`nextTimer, ads`state, ads.page
    ensures ads.Valid() && ads.page.Valid()
    ensures m == if runlocalscripts then |InlineScripts(old(ads.page.View(order, None)))| else 0
    ensures ads.page.nextId == old(ads.page.nextId) + 2 * m
    ensures ads.page.Kids(ads.container.value) ==
      old(ads.page.Kids(ads.container.value)) + RerunWrappers(old(ads.page.nextId), m)
    ensures forall n :: n in old(ads.page.name) ==> n in ads.page.name
  {
    m := 0;
    if runlocalscripts {
      var scriptArray := InlineScripts(ads.page.View(order, None));
      RerunScripts(ads, scriptArray);
      m := |scriptArray|;
    } else {
      assert ads.page.Kids(ads.container.value) + [] == ads.page.Kids(ads.container.value);
    }
  }

  /** With `refreshgpt`, inject the GPT refresh script into the container. */
  method RefreshGpt(ads: AdManager, refreshgpt: bool)
    requires ads.Valid() && ads.page.Valid() && ads.container.Some?
    modifies ads.page
    ensures ads.Valid() && ads.page.Valid()
    ensures ads.page.nextId == old(ads.page.nextId) + if refreshgpt then 1 else 0
    ensures refreshgpt ==>
      ads.page.Kids(ads.container.value) == old(ads.page.Kids(ads.container.value)) + [old(ads.page.nextId)]
    ensures !refreshgpt ==> ads.page.Kids(ads.container.value) == old(ads.page.Kids(ads.container.value))
    ensures refreshgpt ==>
      NameOf(ads.page.name, old(ads.page.nextId)) == "SCRIPT" && SrcOf(ads.page.src, old(ads.page.nextId)) == RefreshGptScript
    ensures forall n :: n in old(ads.page.name) ==> n in ads.page.name
  {
    if refreshgpt {
      var script := ads.page.AppendNew(ads.container.value, "script", RefreshGptScript);
      UpperTags();
    }
  }

  /** The container's children after the re-runs (`k1`) and after the optional refresh script (`k2`). */
  lemma ContinuationStep(k0: seq<NodeId>, k1: seq<NodeId>, k2: seq<NodeId>, n0: nat, m: nat, refresh: bool)
    requires k1 == k0 + RerunWrappers(n0, m)
    requires refresh ==> k2 == k1 + [n0 + 2 * m]
    requires !refresh ==> k2 == k1
    ensures k2 == k0 + ContinuationKids(n0, m, refresh)
  {
    if refresh {
      AppendAssoc(k0, RerunWrappers(n0, m), [n0 + 2 * m]);
    }
  }

  lemma AppendAssoc<T>(a: seq<T>, b: seq<T>, c: seq<T>)
    ensures (a + b) + c == a + (b + c)
  {
  }

  /**
   * The continuation of handleScriptError: with `runlocalscripts`, re-run every
   * inline script of the document; with `refreshgpt`, inject the GPT refresh
   * script into the container.
   */
  method ScriptErrorContinuation(ads: AdManager, runlocalscripts: bool, refreshgpt: bool, order: seq<NodeId>)
    requires ads.Valid() && ads.page.Valid() && ads.container.Some?
    modifies ads`timeoutId, ads`pendingTicks, ads`nextTimer, ads`state, ads.page
    ensures ads.Valid() && ads.page.Valid()
    ensures var m := if runlocalscripts then |InlineScripts(old(ads.page.View(order, None)))| else 0;
      ads.page.Kids(ads.container.value) ==
        old(ads.page.Kids(ads.container.value)) + ContinuationKids(old(ads.page.nextId), m, refreshgpt)
    ensures forall n :: n in old(ads.page.name) ==> n in ads.page.name
  {
    var page, c := ads.page, ads.container.value;
    ghost var kids0, n0 := page.Kids(c), page.nextId;
    var m := RerunInlineScripts(ads, runlocalscripts, order);
    ghost var reruns := page.Kids(c);
    RefreshGpt(ads, refreshgpt);
    ContinuationStep(kids0, reruns, page.Kids(c), n0, m, refreshgpt);
  }

  /**
   * overrideJqueryReady: with the option off, the continuation runs at once;
   * otherwise the override script is injected and the continuation waits for
   * its reply.
   */
  method OverrideJqueryReady(s: Session, order: seq<NodeId>)
    requires s.Valid() && s.ads.container.Some?
    modifies s`jqueryListening, s.ads`timeoutId, s.ads`pendingTicks, s.ads`nextTimer, s.ads`state, s.page
    ensures s.Valid()
    ensures !s.overridejqueryready ==>
      var m := if s.runlocalscripts then |InlineScripts(old(s.page.View(order, None)))| else 0;
      && s.jqueryListening == old(s.jqueryListening)
      && s.page.Kids(s.ads.container.value) ==
           old(s.page.Kids(s.ads.container.value)) + ContinuationKids(old(s.page.nextId), m, s.refreshgpt)
    ensures s.overridejqueryready ==>
      var script := old(s.page.nextId);
      && s.jqueryListening && s.ads.state == old(s.ads.state)
      && s.page.Kids(s.ads.container.value) == old(s.page.Kids(s.ads.container.value)) + [script]
      && NameOf(s.page.name, script) == "SCRIPT" && SrcOf(s.page.src, script) == OverrideJqueryReadyScript
  {
    if !s.overridejqueryready {
      ScriptErrorContinuation(s.ads, s.runlocalscripts, s.refreshgpt, order);
      return;
    }
    s.jqueryListening := true;
    var script := s.page.AppendNew(s.ads.container.value, "script", OverrideJqueryReadyScript);
    UpperTags();
  }

  /** The jQuery-ready reply: if the listener is attached, detach it and run the continuation. */
  method JqueryReadyResponse(s: Session, order: seq<NodeId>)
    requires s.Valid()
    modifies s`jqueryListening, s.ads`timeoutId, s.ads`pendingTicks, s.ads`nextTimer, s.ads`state, s.page
    ensures s.Valid() && !s.jqueryListening
    ensures !old(s.jqueryListening) ==> s.page.kids == old(s.page.kids) && s.ads.state == old(s.ads.state)
    ensures old(s.jqueryListening) ==>
      var m := if s.runlocalscripts then |InlineScripts(old(s.page.View(order, None)))| else 0;
      s.page.Kids(s.ads.container.value) ==
        old(s.page.Kids(s.ads.container.value)) + ContinuationKids(old(s.page.nextId), m, s.refreshgpt)
  {
    if !s.jqueryListening {
      return;
    }
    s.jqueryListening := false;
    ScriptErrorContinuation(s.ads, s.runlocalscripts, s.refreshgpt, order);
  }

  /**
   * handleScriptError: nothing unless a script error was recorded; the body
   * runs only while the latch is open, and closes it.
   */
  method HandleScriptError(s: Session, order: seq<NodeId>)
    requires s.Valid() && s.ads.container.Some?
    modifies s`scriptErrorHandled, s`jqueryListening
    modifies s.ads`timeoutId, s.ads`pendingTicks, s.ads`nextTimer, s.ads`state, s.page
    ensures s.Valid()
    ensures s.scriptErrorHandled == (old(s.scriptErrorHandled) || s.scriptErrorFlag)
    ensures !s.scriptErrorFlag || old(s.scriptErrorHandled) ==>
      && s.page.kids == old(s.page.kids) && s.page.nextId == old(s.page.nextId)
      && s.jqueryListening == old(s.jqueryListening) && s.ads.state == old(s.ads.state)
    ensures old(s.page.Kids(s.ads.container.value)) <= s.page.Kids(s.ads.container.value)
  {
    if !s.scriptErrorFlag {
      return;
    }
    if s.scriptErrorHandled {
      return;
    }
    s.scriptErrorHandled := true;
    OverrideJqueryReady(s, order);
  }

  // ---------------------------------------------------------------------
  // The queue

  /** processNodeQueueComplete: the session reports completion, then loading started. */
  method ProcessNodeQueueComplete(s: Session, order: seq<NodeId>)
    requires s.Valid() && s.ads.container.Some?
    modifies s`state, s`scriptErrorHandled, s`jqueryListening
    modifies s.ads`timeoutId, s.ads`pendingTicks, s.ads`nextTimer, s.ads`state, s.page
    ensures s.Valid()
    ensures s.state == StateAdLoadStart
    ensures s.scriptErrorHandled == (old(s.scriptErrorHandled) || s.scriptErrorFlag)
    ensures old(s.page.Kids(s.ads.container.value)) <= s.page.Kids(s.ads.container.value)
  {
    s.state := StateProcessNodesComplete;
    s.state := StateAdLoadStart;
    HandleScriptError(s, order);
  }

  /** One dequeue of processNodeQueue; `advance` says whether the call goes on to the next entry. */
  method ProcessHead(s: Session, order: seq<NodeId>) returns (advance: bool)
    requires s.Valid() && s.ads.container.Some?
    modifies s`nodeQueue, s`admitted, s`placed, s`lastScriptNode, s`armed, s`currentScriptDiv, s`state,
      s`scriptErrorHandled, s`jqueryListening
    modifies s.ads`timeoutId, s.ads`pendingTicks, s.ads`nextTimer, s.ads`state, s.page
    ensures s.Valid()
    ensures old(s.nodeQueue) == [] ==>
      && !advance && s.nodeQueue == [] && s.admitted == old(s.admitted)
      && s.state == StateAdLoadStart && s.scriptErrorHandled == (old(s.scriptErrorHandled) || s.scriptErrorFlag)
    ensures old(s.nodeQueue) != [] ==>
      && s.nodeQueue == old(s.nodeQueue)[1..] && s.admitted == old(s.admitted) + [old(s.nodeQueue)[0]]
      && advance == !Waits(old(s.nodeQueue)[0].kind) && s.state == old(s.state)
      && s.scriptErrorHandled == old(s.scriptErrorHandled)
      && (!advance ==> s.lastScriptNode.Some?)
    ensures AppendsPlaced(old(s.page.Kids(s.ads.container.value)), s.page.Kids(s.ads.container.value),
                          old(s.placed), s.placed, old(s.nodeQueue) != [])
    ensures |s.placed| == |old(s.placed)| + (if old(s.nodeQueue) == [] then 0 else 1)
    ensures old(s.nodeQueue) != [] ==> Holds(s.page, s.placed[|old(s.placed)|], old(s.nodeQueue)[0])
  {
    if s.nodeQueue == [] {
      ProcessNodeQueueComplete(s, order);
      assert s.placed[|old(s.placed)|..] == [];
      return false;
    }
    advance := AdmitHead(s, order);
  }

  /** The head of a non-empty queue is admitted, then shifted off. */
  method AdmitHead(s: Session, order: seq<NodeId>) returns (advance: bool)
    requires s.Valid() && s.ads.container.Some? && s.nodeQueue != []
    modifies s`nodeQueue, s`admitted, s`placed, s`lastScriptNode, s`armed, s`currentScriptDiv
    modifies s.ads`timeoutId, s.ads`pendingTicks, s.ads`nextTimer, s.ads`state, s.page
    ensures s.Valid()
    ensures s.nodeQueue == old(s.nodeQueue)[1..] && s.admitted == old(s.admitted) + [old(s.nodeQueue)[0]]
    ensures advance == !Waits(old(s.nodeQueue)[0].kind) && (!advance ==> s.lastScriptNode.Some?)
    ensures AppendsPlaced(old(s.page.Kids(s.ads.container.value)), s.page.Kids(s.ads.container.value),
                          old(s.placed), s.placed, true)
    ensures |s.placed| == |old(s.placed)| + 1 && Holds(s.page, s.placed[|old(s.placed)|], old(s.nodeQueue)[0])
  {
    var wrapper;
    advance, wrapper := Admit(s, s.nodeQueue[0], order);
    Dequeue(s, wrapper);
    assert s.placed[|old(s.placed)|..] == [wrapper];
  }

  /**
   * `nodeQueue.shift()`, recorded once the head is placed (admission does not
   * read the queue): the head joins the admitted entries and its wrapper the
   * placed ones.
   */
  method Dequeue(s: Session, wrapper: NodeId)
    requires s.Valid() && s.nodeQueue != []
    modifies s`nodeQueue, s`admitted, s`placed
    ensures s.Valid()
    ensures s.nodeQueue == old(s.nodeQueue)[1..] && s.admitted == old(s.admitted) + [old(s.nodeQueue)[0]]
    ensures s.placed == old(s.placed) + [wrapper]
  {
    s.admitted := s.admitted + [s.nodeQueue[0]];
    s.placed := s.placed + [wrapper];
    s.nodeQueue := s.nodeQueue[1..];
  }

  /**
   * Wrapper `w` holds what admitting `info` placed: for a SCRIPT entry a div
   * holding a script with the entry's url, otherwise the element requested,
   * whose `src` is the entry's url (with "?adsidebar" appended when an image
   * found in the page is made to reload).
   */
  ghost predicate Holds(page: Page, w: NodeId, info: NodeInfo)
    reads page
  {
    |page.Kids(w)| == 1 &&
    var n := page.Kids(w)[0];
    if info.kind == "SCRIPT" then
      |page.Kids(n)| == 1 && NameOf(page.name, page.Kids(n)[0]) == "SCRIPT" && SrcOf(page.src, page.Kids(n)[0]) == info.url
    else
      SrcOf(page.src, n) == info.url || SrcOf(page.src, n) == info.url + "?adsidebar"
  }

  /**
   * While the placed wrappers grow from `p0` to `p1`, the container's children
   * grow from `k0` to `k1` by those wrappers, in order, followed by nothing
   * else when `exact`.
   */
  ghost predicate AppendsPlaced(k0: seq<NodeId>, k1: seq<NodeId>, p0: seq<NodeId>, p1: seq<NodeId>, exact: bool)
  {
    p0 <= p1 && if exact then k1 == k0 + p1[|p0|..] else k0 + p1[|p0|..] <= k1
  }

  /** One placement followed by further growth is growth by all of it. */
  lemma AppendsPlacedStep(k0: seq<NodeId>, k1: seq<NodeId>, k2: seq<NodeId>,
                          p0: seq<NodeId>, p1: seq<NodeId>, p2: seq<NodeId>, exact: bool)
    requires AppendsPlaced(k0, k1, p0, p1, true) && |p1| == |p0| + 1
    requires AppendsPlaced(k1, k2, p1, p2, exact)
    ensures AppendsPlaced(k0, k2, p0, p2, exact)
  {
    var w := p1[|p0|];
    assert k1 == k0 + [w];
    assert p2[|p0|..] == [w] + p2[|p1|..];
    AppendAssoc(k0, [w], p2[|p1|..]);
  }

  /**
   * Admitting the head entry by its kind: it is placed in a fresh wrapper that
   * becomes the container's last child; `advance` when nothing waits for it.
   */
  method Admit(s: Session, nodeInfo: NodeInfo, order: seq<NodeId>) returns (advance: bool, wrapper: NodeId)
    requires s.Valid() && s.ads.container.Some?
    modifies s`lastScriptNode, s`armed, s`currentScriptDiv
    modifies s.ads`timeoutId, s.ads`pendingTicks, s.ads`nextTimer, s.ads`state, s.page
    ensures s.Valid()
    ensures advance == !Waits(nodeInfo.kind)
    ensures !advance ==> s.lastScriptNode.Some?
    ensures wrapper !in old(s.page.name)
    ensures s.page.Kids(s.ads.container.value) == old(s.page.Kids(s.ads.container.value)) + [wrapper]
    ensures Holds(s.page, wrapper, nodeInfo)
  {
    if nodeInfo.kind != "SCRIPT" {
      if nodeInfo.kind == "SUBDOCUMENT" {
        var node := AdmitSubdocument(s, nodeInfo, order);
        wrapper := s.page.parent[node];
        advance := false;
      } else {
        var node := AdmitOther(s.ads, nodeInfo, order);
        wrapper := s.page.parent[node];
        advance := true;
      }
    } else {
      var script, div := AdmitScript(s, nodeInfo);
      wrapper := div + 1;
      advance := false;
    }
  }

  /**
   * processNodeQueue: dequeue and admit entries up to the first one that
   * waits for its node; on an empty queue, report completion.
   */
  method ProcessNodeQueue(s: Session, order: seq<NodeId>)
    requires s.Valid() && s.ads.container.Some?
    modifies s`nodeQueue, s`admitted, s`placed, s`lastScriptNode, s`armed, s`currentScriptDiv, s`state,
      s`scriptErrorHandled, s`jqueryListening
    modifies s.ads`timeoutId, s.ads`pendingTicks, s.ads`nextTimer, s.ads`state, s.page
    decreases |s.nodeQueue|
    ensures s.Valid()
    ensures var k := Drained(old(s.nodeQueue));
      && k <= |old(s.nodeQueue)|
      && s.nodeQueue == old(s.nodeQueue)[k..] && s.admitted == old(s.admitted) + old(s.nodeQueue)[..k]
    ensures RunsDry(old(s.nodeQueue)) ==>
      s.state == StateAdLoadStart && s.scriptErrorHandled == (old(s.scriptErrorHandled) || s.scriptErrorFlag)
    ensures !RunsDry(old(s.nodeQueue)) ==> s.state == old(s.state) && s.lastScriptNode.Some?
    ensures AppendsPlaced(old(s.page.Kids(s.ads.container.value)), s.page.Kids(s.ads.container.value),
                          old(s.placed), s.placed, !RunsDry(old(s.nodeQueue)))
  {
    ghost var q := s.nodeQueue;
    ghost var admitted0, placed0, kids0 := s.admitted, s.placed, s.page.Kids(s.ads.container.value);
    DrainedSpec(q);
    var advance := ProcessHead(s, order);
    if advance {
      ghost var placed1, kids1 := s.placed, s.page.Kids(s.ads.container.value);
      DrainedTail(q);
      ProcessNodeQueue(s, order);
      AppendAssoc(admitted0, [q[0]], q[1..][..Drained(q[1..])]);
      AppendsPlacedStep(kids0, kids1, s.page.Kids(s.ads.container.value), placed0, placed1, s.placed, !RunsDry(q));
    } else if q != [] {
      assert !RunsDry(q) by { assert Waits(q[0].kind); }
      assert q[..1] == [q[0]];
    }
  }

  /** Past an entry that does not wait, the call goes on with the rest of the queue. */
  lemma DrainedTail(q: seq<NodeInfo>)
    requires q != [] && !Waits(q[0].kind)
    ensures Drained(q) == 1 + Drained(q[1..])
    ensures q[1..][Drained(q[1..])..] == q[Drained(q)..]
    ensures q[..Drained(q)] == [q[0]] + q[1..][..Drained(q[1..])]
    ensures RunsDry(q) <==> RunsDry(q[1..])
  {
    var r := q[1..];
    var k := Drained(r);
    assert Drained(q) == 1 + k;
    assert r[k..] == q[1 + k..];
    assert q[..1 + k] == [q[0]] + r[..k];
    if RunsDry(q[1..]) {
      forall i | 0 <= i < |q| ensures !Waits(q[i].kind) {
        if i > 0 { assert q[i] == q[1..][i - 1]; }
      }
    }
    if RunsDry(q) {
      forall i | 0 <= i < |q[1..]| ensures !Waits(q[1..][i].kind) {
        assert q[1..][i] == q[i + 1];
      }
    }
  }

  /**
   * nodeLoaded and nodeError: either event on the armed node disarms it and
   * advances the queue, so a failed load does not stall it.
   */
  method NodeSettled(s: Session, node: NodeId, order: seq<NodeId>)
    requires s.Valid() && node in s.armed
    modifies s`nodeQueue, s`admitted, s`placed, s`lastScriptNode, s`armed, s`currentScriptDiv, s`state,
      s`scriptErrorHandled, s`jqueryListening
    modifies s.ads`timeoutId, s.ads`pendingTicks, s.ads`nextTimer, s.ads`state, s.page
    ensures s.Valid()
    ensures node !in s.armed || s.lastScriptNode == Some(node)
    ensures var k := Drained(old(s.nodeQueue));
      s.nodeQueue == old(s.nodeQueue)[k..] && s.admitted == old(s.admitted) + old(s.nodeQueue)[..k]
    ensures RunsDry(old(s.nodeQueue)) ==> s.state == StateAdLoadStart
    ensures !RunsDry(old(s.nodeQueue)) ==> s.state == old(s.state) && s.lastScriptNode.Some?
    ensures AppendsPlaced(old(s.page.Kids(s.ads.container.value)), s.page.Kids(s.ads.container.value),
                          old(s.placed), s.placed, !RunsDry(old(s.nodeQueue)))
  {
    NodeRemoveEventListeners(s, node);
    ProcessNodeQueue(s, order);
  }

  // ---------------------------------------------------------------------
  // The document.write bridge

  /** NodeQueue.windowLoad: inject the document.write override and attach its listener. */
  method WindowLoad(s: Session)
    requires s.Valid() && s.ads.container.Some?
    modifies s`docWriteListening, s.page
    ensures s.Valid() && s.docWriteListening
    ensures var script := old(s.page.nextId);
      && s.page.Kids(s.ads.container.value) == old(s.page.Kids(s.ads.container.value)) + [script]
      && NameOf(s.page.name, script) == "SCRIPT" && SrcOf(s.page.src, script) == OverrideDocWriteScript
  {
    var script := s.page.AppendNew(s.ads.container.value, "script", OverrideDocWriteScript);
    UpperTags();
    s.docWriteListening := true;
  }

  /**
   * The document half of inserting a parsed fragment into the current script
   * div: its nodes in order, then a dummy script parsed from an empty script
   * element.
   */
  method AppendWithDummy(page: Page, div: NodeId, nodes: seq<Parsed>) returns (dummy: NodeId)
    requires page.Valid() && div in page.name
    modifies page
    ensures page.Valid()
    ensures dummy == old(page.nextId) + |nodes| && page.nextId == dummy + 1
    ensures page.Kids(div) == old(page.Kids(div)) + Span(old(page.nextId), |nodes|) + [dummy]
    ensures page.name == (old(page.name) + FragmentNames(old(page.nextId), nodes))[dummy := "SCRIPT"]
    ensures page.src == (old(page.src) + FragmentSrcs(old(page.nextId), nodes))[dummy := ""]
  {
    page.AppendFragment(div, nodes);
    dummy := page.CreateElement("script");
    UpperTags();
    page.Attach(div, dummy);
  }

  /**
   * `nodes` were appended to `div` as fresh elements numbered from `n0`, then
   * a dummy script numbered after them; `kids0`, `name0` and `src0` are the
   * div's children and the element names and sources before.
   */
  ghost predicate FragmentInserted(page: Page, div: NodeId, nodes: seq<Parsed>, kids0: seq<NodeId>,
                                   name0: map<NodeId, string>, src0: map<NodeId, string>, n0: nat)
    reads page
  {
    var dummy := n0 + |nodes|;
    && page.Kids(div) == kids0 + Span(n0, |nodes|) + [dummy]
    && page.name == (name0 + FragmentNames(n0, nodes))[dummy := "SCRIPT"]
    && page.src == (src0 + FragmentSrcs(n0, nodes))[dummy := ""]
  }

  /**
   * Inserting a parsed fragment into the current script div, the dummy script
   * after it becoming the armed node. (The source arms the dummy before it is
   * attached; nothing observes the difference.)
   */
  method InsertFragment(s: Session, div: NodeId, nodes: seq<Parsed>)
    requires s.Valid() && div in s.page.name && s.ads.container.Some?
    modifies s`lastScriptNode, s`armed, s.page
    ensures s.Valid()
    ensures FragmentInserted(s.page, div, nodes, old(s.page.Kids(div)), old(s.page.name), old(s.page.src),
                             old(s.page.nextId))
    ensures s.lastScriptNode == Some(old(s.page.nextId) + |nodes|) && s.armed == {old(s.page.nextId) + |nodes|}
  {
    var dummy := AppendWithDummy(s.page, div, nodes);
    NodeAddEventListeners(s, dummy);
  }

  /**
   * A `document.write` notification: count it and buffer the payload; once
   * the buffer parses into some node, empty it, append the nodes to the
   * current script div and arm a dummy script after them. Without a current
   * script div the append fails after the buffer was emptied.
   */
  method DocWriteNotification(s: Session, str: string, parse: string -> seq<Parsed>)
    requires s.Valid()
    modifies s`numDocWrites, s`documentWriteString, s`lastScriptNode, s`armed, s.page
    ensures s.Valid()
    ensures !old(s.docWriteListening) ==>
      && s.numDocWrites == old(s.numDocWrites) && s.documentWriteString == old(s.documentWriteString)
      && s.page.kids == old(s.page.kids) && s.lastScriptNode == old(s.lastScriptNode)
    ensures old(s.docWriteListening) ==>
      var step := DocWriteStep(old(s.documentWriteString), str, parse);
      && s.numDocWrites == old(s.numDocWrites) + 1
      && s.documentWriteString == step.buffer
      && (step.batch == [] || s.currentScriptDiv.None? ==>
            s.page.kids == old(s.page.kids) && s.lastScriptNode == old(s.lastScriptNode))
      && (step.batch != [] && s.currentScriptDiv.Some? ==>
            && FragmentInserted(s.page, s.currentScriptDiv.value, step.batch,
                                old(s.page.Kids(s.currentScriptDiv.value)), old(s.page.name), old(s.page.src),
                                old(s.page.nextId))
            && s.lastScriptNode == Some(old(s.page.nextId) + |step.batch|)
            && s.armed == {old(s.page.nextId) + |step.batch|})
  {
    if !s.docWriteListening {
      return;
    }
    var docFragmentToInsert := BufferWrite(s, str, parse);
    if |docFragmentToInsert| == 0 || s.currentScriptDiv.None? {
      return;
    }
    InsertFragment(s, s.currentScriptDiv.value, docFragmentToInsert);
  }

  /**
   * The buffering half of a notification: count it, append the payload, and
   * take the buffer's nodes out when it parses into some.
   */
  method BufferWrite(s: Session, str: string, parse: string -> seq<Parsed>) returns (nodes: seq<Parsed>)
    modifies s`numDocWrites, s`documentWriteString
    ensures var step := DocWriteStep(old(s.documentWriteString), str, parse);
      && nodes == step.batch && s.documentWriteString == step.buffer
    ensures s.numDocWrites == old(s.numDocWrites) + 1
  {
    s.numDocWrites := s.numDocWrites + 1;
    s.documentWriteString := s.documentWriteString + str;
    nodes := parse(s.documentWriteString);
    if |nodes| != 0 {
      s.documentWriteString := "";
    }
  }
}
