/** `fetch_exposiciones`: locate the candidates of the fetched page, keep at
    most twelve, parse each and keep the records that pass validation; fall
    back to the synthetic record when the page cannot be fetched. */
module Fetcher {
  import opened Seqs
  import opened Dom
  import opened Extractor
  import opened Locator

  /** What the HTTP request and the HTML parse deliver: the document's root,
      or a failure (transport error, timeout, non-2xx status). */
  datatype Response = Fetched(document: Node) | FetchFailed

  const MaxExhibitions := 12

  /** The record parsed from each card, in card order. */
  function ParseAll(cards: seq<Node>, md5: string -> string, now: Timestamp): seq<Exhibition>
  {
    seq(|cards|, i requires 0 <= i < |cards| => Parse(cards[i], md5, now))
  }

  /** The records the loop keeps from the given cards. */
  function Harvest(cards: seq<Node>, md5: string -> string, now: Timestamp): seq<Exhibition>
  {
    Filter(ParseAll(cards, md5, now), IsValid)
  }

  /** The cards the loop visits: the first twelve candidates. */
  function VisitedCards(document: Node): seq<Node>
  {
    Take(LocateCandidates(document), MaxExhibitions)
  }

  /** What `fetch_exposiciones` returns. */
  function Exposiciones(response: Response, md5: string -> string, now: Timestamp): seq<Exhibition>
  {
    match response
    case FetchFailed => FallbackData(now)
    case Fetched(document) => Harvest(VisitedCards(document), md5, now)
  }

  /** The loop of `fetch_exposiciones`, building the list by appending. */
  method FetchExposiciones(response: Response, md5: string -> string, now: Timestamp)
    returns (exposiciones: seq<Exhibition>)
    ensures exposiciones == Exposiciones(response, md5, now)
    ensures response.Fetched? ==> |exposiciones| <= MaxExhibitions
    ensures response.Fetched? ==> forall k :: 0 <= k < |exposiciones| ==> IsValid(exposiciones[k])
  {
    match response {
      case FetchFailed =>
        exposiciones := FallbackData(now);
      case Fetched(document) =>
        var cards := LocateCandidates(document);
        var visited := Take(cards, MaxExhibitions);
        exposiciones := [];
        for i := 0 to |visited|
          invariant exposiciones == Harvest(visited[..i], md5, now)
        {
          var exposicion := Parse(visited[i], md5, now);
          HarvestStep(visited, i, md5, now);
          if IsValid(exposicion) {
            exposiciones := exposiciones + [exposicion];
          }
        }
        assert visited[..|visited|] == visited;
        HarvestIsBoundedAndValid(visited, md5, now);
    }
  }

  /** Visiting one more card appends its record exactly when it is valid. */
  lemma HarvestStep(cards: seq<Node>, i: nat, md5: string -> string, now: Timestamp)
    requires i < |cards|
    ensures var e := Parse(cards[i], md5, now);
      Harvest(cards[..i + 1], md5, now) == Harvest(cards[..i], md5, now) + (if IsValid(e) then [e] else [])
  {
    assert ParseAll(cards[..i + 1], md5, now)[..i] == ParseAll(cards[..i], md5, now);
  }

  /** The kept records are no more than the cards, and all valid. */
  lemma HarvestIsBoundedAndValid(cards: seq<Node>, md5: string -> string, now: Timestamp)
    ensures |Harvest(cards, md5, now)| <= |cards|
    ensures forall k :: 0 <= k < |Harvest(cards, md5, now)| ==> IsValid(Harvest(cards, md5, now)[k])
  {
  }

  /** Every kept record is the record of one of the cards. */
  lemma HarvestComesFromCards(cards: seq<Node>, md5: string -> string, now: Timestamp)
    ensures var r := Harvest(cards, md5, now);
      forall k :: 0 <= k < |r| ==> exists i :: 0 <= i < |cards| && r[k] == Parse(cards[i], md5, now)
  {
    var r := Harvest(cards, md5, now);
    var parsed := ParseAll(cards, md5, now);
    forall k | 0 <= k < |r|
      ensures exists i :: 0 <= i < |cards| && r[k] == Parse(cards[i], md5, now)
    {
      var i :| 0 <= i < |parsed| && parsed[i] == r[k];
    }
  }

  /** A fetched page yields at most twelve records, each accepted by the
      validation test and each parsed from one of the first twelve
      candidates. */
  lemma FetchedRecordsAreValid(document: Node, md5: string -> string, now: Timestamp)
    ensures var r := Exposiciones(Fetched(document), md5, now);
      && |r| <= MaxExhibitions
      && (forall k :: 0 <= k < |r| ==> IsValid(r[k]))
      && forall k :: 0 <= k < |r| ==>
        exists i :: 0 <= i < |VisitedCards(document)| && r[k] == Parse(VisitedCards(document)[i], md5, now)
  {
    HarvestIsBoundedAndValid(VisitedCards(document), md5, now);
    HarvestComesFromCards(VisitedCards(document), md5, now);
  }

  /** The kept records keep the order of their cards, and no card with a
      valid record is lost: idx gives, for each record, the position of the
      card it came from. */
  lemma HarvestKeepsCardOrder(cards: seq<Node>, md5: string -> string, now: Timestamp)
    ensures var r, idx := Harvest(cards, md5, now), FilterIndices(ParseAll(cards, md5, now), IsValid);
      && |idx| == |r|
      && (forall k :: 0 <= k < |idx| ==> idx[k] < |cards| && r[k] == Parse(cards[idx[k]], md5, now))
      && (forall k, l :: 0 <= k < l < |idx| ==> idx[k] < idx[l])
      && forall j :: 0 <= j < |cards| && IsValid(Parse(cards[j], md5, now)) ==> j in idx
  {
    FilterKeepsOrder(ParseAll(cards, md5, now), IsValid);
  }

  /** The loop's result is empty exactly when no visited card yields a
      valid record. */
  lemma NothingValidMeansEmpty(cards: seq<Node>, md5: string -> string, now: Timestamp)
    ensures Harvest(cards, md5, now) == [] <==>
      forall i :: 0 <= i < |cards| ==> !IsValid(Parse(cards[i], md5, now))
  {
    var parsed := ParseAll(cards, md5, now);
    if Harvest(cards, md5, now) == [] {
      forall i | 0 <= i < |cards| ensures !IsValid(Parse(cards[i], md5, now)) {
        assert parsed[i] == Parse(cards[i], md5, now);
      }
    } else {
      var r := Harvest(cards, md5, now);
      assert r[0] in parsed && IsValid(r[0]);
    }
  }

  /** The length of an MD5 hex digest: 32 hexadecimal digits. */
  const DigestLength := 32

  /** With a digest of the usual length, no parsed record carries the
      fallback id. */
  lemma HarvestHasNoFallbackId(cards: seq<Node>, md5: string -> string, now: Timestamp)
    requires forall s :: |md5(s)| == DigestLength
    ensures forall k :: 0 <= k < |Harvest(cards, md5, now)| ==> Harvest(cards, md5, now)[k].id != FallbackId
  {
    var parsed := ParseAll(cards, md5, now);
    var r := Harvest(cards, md5, now);
    forall k | 0 <= k < |r| ensures r[k].id != FallbackId {
      var i :| 0 <= i < |parsed| && parsed[i] == r[k];
      assert |md5(r[k].title + r[k].description)| == DigestLength;
    }
  }

  /** With a digest of the usual length, a record with the fallback id
      appears exactly when the fetch failed. */
  lemma FallbackOnlyOnFailure(response: Response, md5: string -> string, now: Timestamp)
    requires forall s :: |md5(s)| == DigestLength
    ensures response.FetchFailed? <==>
      exists k :: 0 <= k < |Exposiciones(response, md5, now)| && Exposiciones(response, md5, now)[k].id == FallbackId
  {
    if response.Fetched? {
      HarvestHasNoFallbackId(VisitedCards(response.document), md5, now);
    } else {
      assert Exposiciones(response, md5, now)[0].id == FallbackId;
    }
  }
}
