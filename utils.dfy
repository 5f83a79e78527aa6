/** `AdsidebarUtils.findNode`: the first element of a tag and `src` outside the ad container. */
module Utils {
  import opened Dom

  /** `querySelectorAll(tagType)` matches element names without regard to ASCII case. */
  predicate HasTag(e: Elem, tagType: string)
  {
    e.name == Upper(tagType)
  }

  /** An element `findNode` may return: the tag, the `src`, and not inside the ad container. */
  predicate Qualifies(e: Elem, tagType: string, src: string)
  {
    HasTag(e, tagType) && e.src == src && !e.inContainer
  }

  /** `doc.querySelectorAll(tagType)`, in document order. */
  function SelectByTag(doc: seq<Elem>, tagType: string): seq<Elem>
  {
    if doc == [] then []
    else (if HasTag(doc[0], tagType) then [doc[0]] else []) + SelectByTag(doc[1..], tagType)
  }

  /** The for/break loop over the selected elements. */
  function FirstMatch(nodes: seq<Elem>, src: string): Option<NodeId>
  {
    if nodes == [] then None
    else if src == nodes[0].src && !nodes[0].inContainer then Some(nodes[0].id)
    else FirstMatch(nodes[1..], src)
  }

  function FindNode(doc: seq<Elem>, tagType: string, src: string): Option<NodeId>
  {
    var nodeArray := SelectByTag(doc, tagType);
    if |nodeArray| == 0 then None else FirstMatch(nodeArray, src)
  }

  /** One step of the search: the head decides, or the search goes on in the tail. */
  lemma {:induction false} FindNodeUnfold(doc: seq<Elem>, tagType: string, src: string)
    requires doc != []
    ensures FindNode(doc, tagType, src) ==
      if Qualifies(doc[0], tagType, src) then Some(doc[0].id) else FindNode(doc[1..], tagType, src)
  {
    var rest := SelectByTag(doc[1..], tagType);
    assert FindNode(doc[1..], tagType, src) == FirstMatch(rest, src);
    if HasTag(doc[0], tagType) {
      var sel := [doc[0]] + rest;
      assert SelectByTag(doc, tagType) == sel;
      assert sel[0] == doc[0] && sel[1..] == rest;
      assert FindNode(doc, tagType, src) == FirstMatch(sel, src);
    } else {
      assert SelectByTag(doc, tagType) == rest;
    }
  }

  /**
   * `findNode` returns the id of the first qualifying element in document order,
   * and null exactly when no element qualifies (in particular when no element
   * has the tag, and when every match lies inside the ad container).
   */
  lemma {:induction false} FindNodeSpec(doc: seq<Elem>, tagType: string, src: string)
    ensures FindNode(doc, tagType, src).None? <==>
      forall i :: 0 <= i < |doc| ==> !Qualifies(doc[i], tagType, src)
    ensures FindNode(doc, tagType, src).Some? ==>
      exists i :: 0 <= i < |doc| && Qualifies(doc[i], tagType, src) &&
        doc[i].id == FindNode(doc, tagType, src).value &&
        forall j :: 0 <= j < i ==> !Qualifies(doc[j], tagType, src)
  {
    if doc != [] {
      FindNodeUnfold(doc, tagType, src);
      FindNodeSpec(doc[1..], tagType, src);
      if !Qualifies(doc[0], tagType, src) {
        if FindNode(doc[1..], tagType, src).Some? {
          var i :| 0 <= i < |doc[1..]| && Qualifies(doc[1..][i], tagType, src) &&
            doc[1..][i].id == FindNode(doc[1..], tagType, src).value &&
            forall j :: 0 <= j < i ==> !Qualifies(doc[1..][j], tagType, src);
          assert Qualifies(doc[i + 1], tagType, src);
          assert forall j :: 0 <= j < i + 1 ==> !Qualifies(doc[j], tagType, src) by {
            forall j | 0 <= j < i + 1 ensures !Qualifies(doc[j], tagType, src) {
              if j > 0 { assert doc[j] == doc[1..][j - 1]; }
            }
          }
        } else {
          forall i | 0 <= i < |doc| ensures !Qualifies(doc[i], tagType, src) {
            if i > 0 { assert doc[i] == doc[1..][i - 1]; }
          }
        }
      } else {
        assert Qualifies(doc[0], tagType, src);
      }
    }
  }

  /** With no element of the tag in the document, `findNode` returns null. */
  lemma FindNodeNoTag(doc: seq<Elem>, tagType: string, src: string)
    requires forall i :: 0 <= i < |doc| ==> !HasTag(doc[i], tagType)
    ensures FindNode(doc, tagType, src) == None
  {
    FindNodeSpec(doc, tagType, src);
  }
}
