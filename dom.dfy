/** An abstract HTML element tree standing in for a parsed BeautifulSoup
    document, with the two searches the scraper uses: `find` (the first
    descendant with a wanted tag) and `find_all` (every such descendant). */
module Dom {
  import opened Seqs

  /** One element: its tag name, the values of its class attribute, its href
      attribute when present, `get_text()`, `get_text(strip=True)`, and its
      child elements in document order. */
  datatype Node = Node(
    tag: string,
    classes: seq<string>,
    href: Option<string>,
    text: string,
    strippedText: string,
    children: seq<Node>)

  /** The nodes of a forest and all their descendants in document order:
      each node comes before its own descendants, which come before its
      following siblings. */
  function Forest(ns: seq<Node>): seq<Node>
    decreases ns
  {
    if ns == [] then [] else [ns[0]] + Forest(ns[0].children) + Forest(ns[1..])
  }

  /** Every element strictly inside n, in document order: what `find` and
      `find_all` search. */
  function Descendants(n: Node): seq<Node>
  {
    Forest(n.children)
  }

  /** The search reaches every depth: a child of n is a descendant of n, and
      so is every descendant of that child. */
  lemma {:induction false} ForestReachesSubtrees(ns: seq<Node>, k: nat)
    requires k < |ns|
    ensures ns[k] in Forest(ns)
    ensures forall d :: d in Forest(ns[k].children) ==> d in Forest(ns)
    decreases ns
  {
    if k > 0 {
      ForestReachesSubtrees(ns[1..], k - 1);
    }
  }

  lemma ChildSubtreeIsSearched(n: Node, c: Node)
    requires c in n.children
    ensures c in Descendants(n)
    ensures forall d :: d in Descendants(c) ==> d in Descendants(n)
  {
    var k :| 0 <= k < |n.children| && n.children[k] == c;
    ForestReachesSubtrees(n.children, k);
  }

  /** `n.find(tags)`: the first descendant, in document order, whose tag is
      one of tags. */
  function Find(n: Node, tags: set<string>): (r: Option<Node>)
    ensures r.None? <==> forall d :: d in Descendants(n) ==> d.tag !in tags
    ensures r.Some? ==> r.value.tag in tags
    ensures r.Some? ==>
      exists i :: 0 <= i < |Descendants(n)| && Descendants(n)[i] == r.value &&
        forall j :: 0 <= j < i ==> Descendants(n)[j].tag !in tags
  {
    First(Descendants(n), (d: Node) => d.tag in tags)
  }

  /** `n.find('a', href=True)`: the first descendant anchor that has an href
      attribute (whatever its value, the empty string included). */
  function FindAnchorWithHref(n: Node): (r: Option<Node>)
    ensures r.None? <==> forall d :: d in Descendants(n) ==> !(d.tag == "a" && d.href.Some?)
    ensures r.Some? ==> r.value in Descendants(n) && r.value.tag == "a" && r.value.href.Some?
    ensures r.Some? ==>
      exists i :: 0 <= i < |Descendants(n)| && Descendants(n)[i] == r.value &&
        forall j :: 0 <= j < i ==> !(Descendants(n)[j].tag == "a" && Descendants(n)[j].href.Some?)
  {
    First(Descendants(n), (d: Node) => d.tag == "a" && d.href.Some?)
  }
}
