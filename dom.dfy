/**
 * The part of the browser the content script relies on, as data: element
 * identities, tag names, `src` attributes, the parent/child structure that
 * `appendChild` maintains, and measured box sizes that may be non-numeric.
 */
module Dom {

  type NodeId = nat

  datatype Option<T> = None | Some(value: T)

  /** A measured dimension (`offsetWidth`, a probe reply's width): a number, or NaN. */
  datatype Dim = Px(px: int) | NaN

  /** JavaScript `d <= k`: a comparison with NaN is false. */
  predicate AtMost(d: Dim, k: int)
  {
    d.Px? && d.px <= k
  }

  /** A blocked request as the content script records it: resource type, tag name, url. */
  datatype NodeInfo = NodeInfo(kind: string, tagType: string, url: string)

  /** One element as `querySelectorAll` reports it, with whether the ad container contains it. */
  datatype Elem = Elem(id: NodeId, name: string, src: string, inContainer: bool)

  /** What a markup parser yields for one top-level node: its tag and its `src`. */
  datatype Parsed = Parsed(tag: string, src: string)

  function UpperChar(c: char): char
  {
    if 'a' <= c <= 'z' then (c as int - 32) as char else c
  }

  /** The node name an HTML document gives an element created with tag `s`. */
  function Upper(s: string): string
  {
    seq(|s|, i requires 0 <= i < |s| => UpperChar(s[i]))
  }

  /** The node names of the tags the content script creates. */
  lemma UpperTags()
    ensures Upper("div") == "DIV" && Upper("script") == "SCRIPT"
    ensures Upper("iframe") == "IFRAME" && Upper("img") == "IMG"
  {
    assert Upper("div") == "DIV" by {
      assert Upper("div")[0] == 'D' && Upper("div")[1] == 'I' && Upper("div")[2] == 'V';
    }
    assert Upper("img") == "IMG" by {
      assert Upper("img")[0] == 'I' && Upper("img")[1] == 'M' && Upper("img")[2] == 'G';
    }
    assert Upper("script") == "SCRIPT" by {
      var u := Upper("script");
      assert u[0] == 'S' && u[1] == 'C' && u[2] == 'R' && u[3] == 'I' && u[4] == 'P' && u[5] == 'T';
    }
    assert Upper("iframe") == "IFRAME" by {
      var u := Upper("iframe");
      assert u[0] == 'I' && u[1] == 'F' && u[2] == 'R' && u[3] == 'A' && u[4] == 'M' && u[5] == 'E';
    }
  }

  /** `s` with every occurrence of `x` removed (what `removeChild` does to a child list). */
  function Without(s: seq<NodeId>, x: NodeId): (r: seq<NodeId>)
    ensures x !in r
    ensures forall y :: y in r <==> y in s && y != x
    ensures x !in s ==> r == s
  {
    if s == [] then []
    else if s[0] == x then Without(s[1..], x)
    else [s[0]] + Without(s[1..], x)
  }

  lemma {:induction false} WithoutAppend(s: seq<NodeId>, t: seq<NodeId>, x: NodeId)
    ensures Without(s + t, x) == Without(s, x) + Without(t, x)
  {
    if s == [] {
      assert s + t == t;
    } else {
      assert (s + t)[1..] == s[1..] + t;
      WithoutAppend(s[1..], t, x);
    }
  }

  /** The child list of `p`; a node never given children has none. */
  function KidsOf(kids: map<NodeId, seq<NodeId>>, p: NodeId): seq<NodeId>
  {
    if p in kids then kids[p] else []
  }

  /** The node name of `n`; the empty string for an unknown identity. */
  function NameOf(name: map<NodeId, string>, n: NodeId): string
  {
    if n in name then name[n] else ""
  }

  /** The `src` of element `n`; an element without one has the empty string. */
  function SrcOf(src: map<NodeId, string>, n: NodeId): string
  {
    if n in src then src[n] else ""
  }

  /** The identities `lo`, `lo + 1`, ..., `lo + m - 1`. */
  function Span(lo: nat, m: nat): (r: seq<NodeId>)
    ensures |r| == m && forall j :: 0 <= j < m ==> r[j] == lo + j
  {
    if m == 0 then [] else Span(lo, m - 1) + [lo + m - 1]
  }

  /** The node name of the fragment node that takes identity `j` when the first takes `n0`. */
  function FragmentName(n0: nat, frag: seq<Parsed>, j: NodeId): string
    requires n0 <= j < n0 + |frag|
  {
    Upper(frag[j - n0].tag)
  }

  function FragmentSrc(n0: nat, frag: seq<Parsed>, j: NodeId): string
    requires n0 <= j < n0 + |frag|
  {
    frag[j - n0].src
  }

  /** The names a parsed fragment's nodes get when they take identities `n0`, `n0 + 1`, ... */
  function FragmentNames(n0: nat, frag: seq<Parsed>): map<NodeId, string>
  {
    map j: NodeId | n0 <= j < n0 + |frag| :: FragmentName(n0, frag, j)
  }

  /** The `src` attributes of a parsed fragment's nodes, by the same identities. */
  function FragmentSrcs(n0: nat, frag: seq<Parsed>): map<NodeId, string>
  {
    map j: NodeId | n0 <= j < n0 + |frag| :: FragmentSrc(n0, frag, j)
  }

  /** DOM `anc.contains(n)` (inclusive), following at most `fuel` parent links. */
  function Within(parent: map<NodeId, NodeId>, n: NodeId, anc: NodeId, fuel: nat): bool
    decreases fuel
  {
    n == anc || (fuel > 0 && n in parent && Within(parent, parent[n], anc, fuel - 1))
  }

  /** The document of one window. */
  class Page {
    var name: map<NodeId, string>
    var src: map<NodeId, string>
    var parent: map<NodeId, NodeId>
    var kids: map<NodeId, seq<NodeId>>
    var nextId: NodeId

    /** Identities below `nextId` are taken, and every listed child names its list's owner as parent. */
    ghost predicate Valid()
      reads this
    {
      (forall n | n in name :: n < nextId) &&
      (forall n | n in parent :: n in name && parent[n] < nextId) &&
      (forall p | p in kids :: p < nextId) &&
      (forall p, c | p in kids && c in kids[p] :: c in parent && parent[c] == p)
    }

    constructor (name0: map<NodeId, string>, src0: map<NodeId, string>,
                 parent0: map<NodeId, NodeId>, kids0: map<NodeId, seq<NodeId>>, next0: NodeId)
      requires forall n | n in name0 :: n < next0
      requires forall n | n in parent0 :: n in name0 && parent0[n] < next0
      requires forall p | p in kids0 :: p < next0
      requires forall p, c | p in kids0 && c in kids0[p] :: c in parent0 && parent0[c] == p
      ensures Valid()
      ensures name == name0 && src == src0 && parent == parent0 && kids == kids0 && nextId == next0
    {
      name, src, parent, kids, nextId := name0, src0, parent0, kids0, next0;
    }

    function Kids(p: NodeId): seq<NodeId>
      reads this
    {
      KidsOf(kids, p)
    }

    /** `anc.contains(n)` on the current document. */
    function Contains(anc: NodeId, n: NodeId): bool
      reads this
    {
      Within(parent, n, anc, nextId)
    }

    /** The known elements of `order` (document order), as `querySelectorAll` would list them. */
    function View(order: seq<NodeId>, container: Option<NodeId>): seq<Elem>
      reads this
    {
      if order == [] then []
      else
        var rest := View(order[1..], container);
        if order[0] in name then
          [Elem(order[0], name[order[0]], SrcOf(src, order[0]),
                container.Some? && Contains(container.value, order[0]))] + rest
        else rest
    }

    /** `e` reports the current name, `src` and containment of a known node. */
    ghost predicate ElemOk(e: Elem, container: Option<NodeId>)
      reads this
    {
      && e.id in name && e.name == name[e.id] && e.src == SrcOf(src, e.id)
      && e.inContainer == (container.Some? && Contains(container.value, e.id))
    }

    /**
     * Every listed element is a known node, reported with its current name and
     * `src`, and as inside the container exactly when the container contains it.
     */
    lemma {:induction false} ViewSpec(order: seq<NodeId>, container: Option<NodeId>)
      ensures forall k :: 0 <= k < |View(order, container)| ==> ElemOk(View(order, container)[k], container)
      decreases |order|
    {
      if order != [] {
        ViewSpec(order[1..], container);
        var rest := View(order[1..], container);
        var r := View(order, container);
        if order[0] in name {
          var e := Elem(order[0], name[order[0]], SrcOf(src, order[0]),
                        container.Some? && Contains(container.value, order[0]));
          assert r == [e] + rest;
          forall k | 0 <= k < |r| ensures ElemOk(r[k], container) {
            if k > 0 {
              assert r[k] == rest[k - 1];
            }
          }
        } else {
          assert r == rest;
        }
      }
    }

    /** `document.createElement(tag)`: a fresh, detached element without children or `src`. */
    method CreateElement(tag: string) returns (n: NodeId)
      requires Valid()
      modifies this
      ensures Valid()
      ensures n == old(nextId) && nextId == n + 1
      ensures n !in old(name) && n !in old(parent) && n !in old(kids)
      ensures name == old(name)[n := Upper(tag)] && src == old(src)[n := ""]
      ensures parent == old(parent) && kids == old(kids)[n := []]
      ensures forall q :: Kids(q) == old(Kids(q))
    {
      n := nextId;
      name := name[n := Upper(tag)];
      src := src[n := ""];
      kids := kids[n := []];
      nextId := nextId + 1;
    }

    /** Assigning the `src` property of element `n`. */
    method SetSrc(n: NodeId, s: string)
      requires Valid()
      modifies this
      ensures Valid()
      ensures src == old(src)[n := s]
      ensures name == old(name) && parent == old(parent) && kids == old(kids) && nextId == old(nextId)
    {
      src := src[n := s];
    }

    /**
     * `p.appendChild(c)`: `c` leaves its current parent's child list and becomes
     * the last child of `p`.
     */
    method AppendChild(p: NodeId, c: NodeId)
      requires Valid() && p in name && c in name && p != c
      modifies this
      ensures Valid()
      ensures parent == old(parent)[c := p]
      ensures Kids(p) == Without(old(Kids(p)), c) + [c]
      ensures c in old(parent) && old(parent)[c] != p ==> Kids(old(parent)[c]) == Without(old(Kids(parent[c])), c)
      ensures forall q :: q != p ==> Kids(q) == Without(old(Kids(q)), c)
      ensures forall q :: q != p && (c in old(parent) ==> q != old(parent)[c]) ==> Kids(q) == old(Kids(q))
      ensures name == old(name) && src == old(src) && nextId == old(nextId)
    {
      Detach(c);
      Attach(p, c);
    }

    /** The first half of `appendChild`: `c` leaves its parent's child list. */
    method Detach(c: NodeId)
      requires Valid() && c in name
      modifies this
      ensures Valid() && c !in parent
      ensures parent == old(parent) - {c}
      ensures forall q :: Kids(q) == Without(old(Kids(q)), c)
      ensures name == old(name) && src == old(src) && nextId == old(nextId)
    {
      if c in parent {
        var q := parent[c];
        kids := kids[q := Without(KidsOf(kids, q), c)];
      }
      parent := parent - {c};
    }

    /** The second half of `appendChild`: a detached `c` becomes the last child of `p`. */
    method Attach(p: NodeId, c: NodeId)
      requires Valid() && p in name && c in name && c !in parent
      modifies this
      ensures Valid()
      ensures parent == old(parent)[c := p]
      ensures Kids(p) == old(Kids(p)) + [c]
      ensures forall q :: q != p ==> Kids(q) == old(Kids(q))
      ensures name == old(name) && src == old(src) && nextId == old(nextId)
    {
      parent := parent[c := p];
      kids := kids[p := KidsOf(kids, p) + [c]];
    }

    /**
     * `p.appendChild(w)` for a fresh div `w`, then `w.appendChild(n)`: `n`
     * leaves its parent and ends up alone inside `w`, the last child of `p`.
     */
    method WrapChild(p: NodeId, n: NodeId) returns (w: NodeId)
      requires Valid() && p in name && n in name && p != n
      modifies this
      ensures Valid()
      ensures w == old(nextId) && w !in old(name) && nextId == w + 1
      ensures Kids(p) == Without(old(Kids(p)), n) + [w]
      ensures Kids(w) == [n] && parent == old(parent)[w := p][n := w]
      ensures forall q :: q != p && q != w ==> Kids(q) == Without(old(Kids(q)), n)
      ensures forall q :: q != p && q != w && (n in old(parent) ==> q != old(parent)[n]) ==> Kids(q) == old(Kids(q))
      ensures name == old(name)[w := "DIV"] && src == old(src)[w := ""]
    {
      ghost var before := Kids(p);
      w := CreateElement("div");
      UpperTags();
      Attach(p, w);
      assert Kids(p) == before + [w] && Kids(w) == [];
      AppendChild(w, n);
      WithoutAppend(before, [w], n);
    }

    /** `document.createElement(tag)` with `src` set to `s`. */
    method CreateWithSrc(tag: string, s: string) returns (n: NodeId)
      requires Valid()
      modifies this
      ensures Valid()
      ensures n == old(nextId) && nextId == n + 1
      ensures n !in old(name) && n !in old(parent) && n !in old(kids)
      ensures name == old(name)[n := Upper(tag)] && src == old(src)[n := s]
      ensures parent == old(parent) && kids == old(kids)[n := []]
      ensures forall q :: Kids(q) == old(Kids(q))
    {
      n := CreateElement(tag);
      SetSrc(n, s);
    }

    /** A new element of tag `tag` with `src` set to `s`, appended as the last child of `p`. */
    method AppendNew(p: NodeId, tag: string, s: string) returns (n: NodeId)
      requires Valid() && p in name
      modifies this
      ensures Valid()
      ensures n == old(nextId) && nextId == n + 1 && n !in old(name)
      ensures name == old(name)[n := Upper(tag)] && src == old(src)[n := s]
      ensures Kids(p) == old(Kids(p)) + [n] && Kids(n) == [] && parent == old(parent)[n := p]
      ensures forall q :: q != p && q != n ==> Kids(q) == old(Kids(q))
    {
      n := CreateWithSrc(tag, s);
      Attach(p, n);
    }

    /**
     * `p.appendChild(fragment)` for a freshly parsed fragment: its top-level
     * nodes take the next identities and become, in order, the last children of `p`.
     */
    method AppendFragment(p: NodeId, frag: seq<Parsed>)
      requires Valid() && p in name
      modifies this
      ensures Valid()
      ensures nextId == old(nextId) + |frag|
      ensures name == old(name) + FragmentNames(old(nextId), frag)
      ensures src == old(src) + FragmentSrcs(old(nextId), frag)
      ensures Kids(p) == old(Kids(p)) + Span(old(nextId), |frag|)
      ensures forall q :: q != p ==> Kids(q) == old(Kids(q))
    {
      var n0 := nextId;
      Allocate(frag);
      AttachAll(p, Span(n0, |frag|));
    }

    /** Parsing a fragment: its top-level nodes take the next identities, detached. */
    method Allocate(frag: seq<Parsed>)
      requires Valid()
      modifies this
      ensures Valid()
      ensures nextId == old(nextId) + |frag|
      ensures name == old(name) + FragmentNames(old(nextId), frag)
      ensures src == old(src) + FragmentSrcs(old(nextId), frag)
      ensures parent == old(parent) && kids == old(kids)
    {
      name := name + FragmentNames(nextId, frag);
      src := src + FragmentSrcs(nextId, frag);
      nextId := nextId + |frag|;
    }

    /** Detached nodes `added` become, in order, the last children of `p`. */
    method AttachAll(p: NodeId, added: seq<NodeId>)
      requires Valid() && p in name
      requires forall c | c in added :: c in name && c !in parent
      modifies this
      ensures Valid()
      ensures Kids(p) == old(Kids(p)) + added
      ensures forall q :: q != p ==> Kids(q) == old(Kids(q))
      ensures name == old(name) && src == old(src) && nextId == old(nextId)
    {
      ghost var parent0, kids0 := parent, kids;
      parent := parent + map c | c in added :: p;
      kids := kids[p := KidsOf(kids, p) + added];
      forall q, c | q in kids && c in kids[q] ensures c in parent && parent[c] == q {
        if q == p && c in added {
        } else {
          assert c in kids0[q];
        }
      }
    }

    /** A listed child is contained in its list's owner. */
    lemma KidContained(p: NodeId, c: NodeId)
      requires Valid()
      ensures c in Kids(p) ==> Contains(p, c)
    {
      if c in Kids(p) {
        assert p in kids && c in kids[p];
        assert c in name && c < nextId;
        assert Within(parent, p, p, nextId - 1);
      }
    }
  }
}
