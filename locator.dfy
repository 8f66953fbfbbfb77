/** The candidate locator: which elements of the fetched document are taken
    to be exhibition cards. */
module Locator {
  import opened Seqs
  import opened Text
  import opened Dom

  const CardKeywords := ["card", "item", "expo", "grid", "col"]
  const ContainerTags := {"article", "div", "section"}
  const MaxFallbackContainers := 20

  /** Some value of the element's class attribute, lower-cased, contains one
      of the card keywords. An element without a class attribute has none. */
  predicate HasCardClass(n: Node)
  {
    exists i, k :: 0 <= i < |n.classes| && 0 <= k < |CardKeywords| && Contains(Lower(n.classes[i]), CardKeywords[k])
  }

  /** The keyword search looks at div elements only. */
  predicate IsCardDiv(n: Node)
  {
    n.tag == "div" && HasCardClass(n)
  }

  predicate IsContainer(n: Node)
  {
    n.tag in ContainerTags
  }

  /** The candidates: every card div of the document in document order; when
      there is none, the first 20 article, div or section elements. */
  function LocateCandidates(document: Node): (cards: seq<Node>)
    ensures forall i :: 0 <= i < |cards| ==> cards[i] in Descendants(document)
    ensures (exists d :: d in Descendants(document) && IsCardDiv(d)) ==>
      && cards != []
      && cards == Filter(Descendants(document), IsCardDiv)
    ensures (forall d :: d in Descendants(document) ==> !IsCardDiv(d)) ==>
      && |cards| <= MaxFallbackContainers
      && cards == Take(Filter(Descendants(document), IsContainer), MaxFallbackContainers)
      && forall i :: 0 <= i < |cards| ==> IsContainer(cards[i])
  {
    var cards := Filter(Descendants(document), IsCardDiv);
    if cards != [] then
      assert cards[0] in Descendants(document) && IsCardDiv(cards[0]);
      cards
    else Take(Filter(Descendants(document), IsContainer), MaxFallbackContainers)
  }

  /** Matching ignores ASCII case: two elements with the same tag whose
      class values agree up to case are both cards or both not. */
  lemma CardMatchIgnoresCase(n1: Node, n2: Node)
    requires n1.tag == n2.tag && |n1.classes| == |n2.classes|
    requires forall i :: 0 <= i < |n1.classes| ==> SameIgnoringCase(n1.classes[i], n2.classes[i])
    ensures IsCardDiv(n1) <==> IsCardDiv(n2)
  {
    forall i | 0 <= i < |n1.classes| ensures Lower(n1.classes[i]) == Lower(n2.classes[i]) {
      LowerIgnoresCase(n1.classes[i], n2.classes[i]);
    }
  }
}
