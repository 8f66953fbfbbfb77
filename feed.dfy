/** The feed assembler of `generate_rss_feed`: the feed object with its fixed
    channel metadata, the HTML body composed for each record, and the loop
    that hands one item per record to the feed. */
module FeedAssembler {
  import opened Text
  import opened Extractor
  import opened Fetcher

  const FeedTitle := "Exposiciones Temporales - Museo Reina Sofía"
  const FeedLink := "https://www.museoreinasofia.es/exposiciones"
  const FeedDescription := "Feed semanal con las exposiciones temporales actuales del Museo Nacional Centro de Arte Reina Sofía"
  const FeedLanguage := "es"
  const FeedUrl := "https://feeds.brunovegadeseoane.com/exposiciones-reina-sofia.xml"
  const Categories := ["Arte", "Exposiciones", "Museo Reina Sofía"]

  /** A line break of the body's triple-quoted template followed by the
      indentation that every line of the template carries. */
  const LineBreak := "\n            "
  const InfoOpen := "<p><strong>Información:</strong> "
  const ParagraphOpen := "<p>"
  const ParagraphClose := "</p>"
  const LinkLabel := "Visitar exposición en web oficial</a></p>"
  const Rule := "<hr>"
  const Footer := "<small>Actualizado automáticamente cada semana</small>"
  const HeadingOpen := "<h3>"
  const HeadingClose := "</h3>"
  const AnchorOpen := "<a href=\""
  const AnchorClose := "\">"

  /** One entry handed to the feed: the arguments of one `add_item` call. */
  datatype FeedItem = FeedItem(
    title: string,
    link: string,
    description: string,
    uniqueId: string,
    pubDate: Timestamp,
    categories: seq<string>)

  function Heading(title: string): string
  {
    HeadingOpen + title + HeadingClose
  }

  function Paragraph(description: string): string
  {
    ParagraphOpen + description + ParagraphClose
  }

  function Anchor(link: string): string
  {
    AnchorOpen + link + AnchorClose
  }

  /** The "Información" paragraph, rendered only for a non-empty date hint. */
  function InfoParagraph(dateText: string): string
  {
    if dateText != "" then InfoOpen + dateText + ParagraphClose else ""
  }

  /** The parts of a record's HTML body in template order: the heading, the
      slot of the "Información" paragraph, the description paragraph, the
      link back to the official page, a rule and the footer note, each on its
      own indented line. */
  function BodyPieces(e: Exhibition): seq<string>
  {
    [LineBreak, Heading(e.title), LineBreak,
     InfoParagraph(e.dateText), LineBreak,
     Paragraph(e.description), LineBreak,
     ParagraphOpen, Anchor(e.link), LinkLabel, LineBreak,
     Rule, LineBreak,
     Footer, LineBreak]
  }

  /** The position of the "Información" paragraph among the body's pieces. */
  const InfoSlot := 3

  /** The HTML body of a record's item. */
  function ItemBody(e: Exhibition): string
  {
    Join(BodyPieces(e))
  }

  /** Right after the heading line, the body shows the "Información"
      paragraph with the record's date hint exactly when that hint is
      non-empty; without one, the next line follows directly. */
  lemma InformationParagraphIffDateText(e: Exhibition)
    ensures |Join(BodyPieces(e)[..InfoSlot])| <= |ItemBody(e)|
    ensures var rest := ItemBody(e)[|Join(BodyPieces(e)[..InfoSlot])|..];
      && (e.dateText != "" <==> InfoOpen <= rest)
      && (e.dateText != "" ==> InfoOpen + e.dateText + ParagraphClose <= rest)
      && (e.dateText == "" ==> rest == Join(BodyPieces(e)[InfoSlot + 1..]))
  {
    var pieces := BodyPieces(e);
    JoinContainsPiece(pieces, InfoSlot);
    var info, after := pieces[InfoSlot], Join(pieces[InfoSlot + 1..]);
    assert ItemBody(e)[|Join(pieces[..InfoSlot])|..] == info + after;
    if e.dateText != "" {
      PrefixExtends(InfoOpen, InfoOpen + e.dateText, ParagraphClose);
      PrefixExtends(InfoOpen, info, after);
      PrefixExtends(info, info, after);
    } else {
      var next := pieces[InfoSlot + 1..];
      assert next[0] == LineBreak;
      assert after == LineBreak + Join(next[1..]);
      FirstCharacterDiffers(InfoOpen, info + after);
    }
  }

  lemma PrefixExtends(a: string, b: string, c: string)
    requires a <= b
    ensures a <= b + c
  {
  }

  lemma FirstCharacterDiffers(a: string, b: string)
    requires a != [] && b != [] && a[0] != b[0]
    ensures !(a <= b)
  {
  }

  /** The body shows the record: its title as a heading, its description as
      a paragraph, and a link to its page. */
  lemma BodyShowsRecord(e: Exhibition)
    ensures Contains(ItemBody(e), Heading(e.title))
    ensures Contains(ItemBody(e), Paragraph(e.description))
    ensures Contains(ItemBody(e), Anchor(e.link))
  {
    var pieces := BodyPieces(e);
    JoinContainsEveryPiece(pieces);
    assert pieces[1] == Heading(e.title) && pieces[5] == Paragraph(e.description) && pieces[8] == Anchor(e.link);
  }

  /** The items added for a list of records, one per record in list order. */
  function ItemsFor(es: seq<Exhibition>): (items: seq<FeedItem>)
    ensures |items| == |es|
  {
    if es == [] then [] else ItemsFor(es[..|es| - 1]) + [ItemFor(es[|es| - 1])]
  }

  /** Each item carries its record's id as unique id, the record's composed
      body and the fixed categories. */
  lemma {:induction false} ItemsCarryRecords(es: seq<Exhibition>)
    ensures |ItemsFor(es)| == |es|
    ensures forall i :: 0 <= i < |es| ==> ItemsFor(es)[i] == ItemFor(es[i])
    ensures forall i :: 0 <= i < |es| ==>
      && ItemsFor(es)[i].uniqueId == es[i].id
      && ItemsFor(es)[i].categories == Categories
      && ItemsFor(es)[i].description == ItemBody(es[i])
      && ItemsFor(es)[i].link == es[i].link
  {
    if es != [] {
      var init := es[..|es| - 1];
      ItemsCarryRecords(init);
      assert forall i :: 0 <= i < |init| ==> init[i] == es[i];
    }
  }

  /** The item added for a record. */
  function ItemFor(e: Exhibition): FeedItem
  {
    FeedItem(e.title, e.link, ItemBody(e), e.id, e.pubDate, Categories)
  }

  /** The feed object: fixed channel metadata and the items added so far. */
  class Feed {
    const title: string
    const link: string
    const description: string
    const language: string
    const feedUrl: string
    var items: seq<FeedItem>

    constructor (title: string, link: string, description: string, language: string, feedUrl: string)
      ensures this.title == title && this.link == link && this.description == description
      ensures this.language == language && this.feedUrl == feedUrl
      ensures items == []
    {
      this.title := title;
      this.link := link;
      this.description := description;
      this.language := language;
      this.feedUrl := feedUrl;
      items := [];
    }

    /** Appends one item; nothing else about the feed changes. */
    method AddItem(title: string, link: string, description: string, uniqueId: string,
                   pubDate: Timestamp, categories: seq<string>)
      modifies this
      ensures items == old(items) + [FeedItem(title, link, description, uniqueId, pubDate, categories)]
    {
      items := items + [FeedItem(title, link, description, uniqueId, pubDate, categories)];
    }
  }

  /** The loop of `generate_rss_feed`: one `add_item` per record, with the
      record's body, id and the fixed categories, in list order. */
  method AddItems(feed: Feed, exposiciones: seq<Exhibition>)
    modifies feed
    ensures feed.items == old(feed.items) + ItemsFor(exposiciones)
  {
    ghost var before := feed.items;
    for i := 0 to |exposiciones|
      invariant feed.items == before + ItemsFor(exposiciones[..i])
    {
      var expo := exposiciones[i];
      var fullDescription := ItemBody(expo);
      feed.AddItem(expo.title, expo.link, fullDescription, expo.id, expo.pubDate, Categories);
      assert exposiciones[..i + 1][..i] == exposiciones[..i];
    }
    assert exposiciones[..|exposiciones|] == exposiciones;
  }

  /** `generate_rss_feed` up to serialisation: fetch the records, create the
      feed with its fixed channel metadata, add one item per record. */
  method GenerateRssFeed(response: Response, md5: string -> string, now: Timestamp)
    returns (exposiciones: seq<Exhibition>, feed: Feed)
    ensures exposiciones == Exposiciones(response, md5, now)
    ensures fresh(feed)
    ensures feed.title == FeedTitle && feed.link == FeedLink && feed.description == FeedDescription
    ensures feed.language == FeedLanguage && feed.feedUrl == FeedUrl
    ensures feed.items == ItemsFor(exposiciones)
    ensures response.Fetched? ==> |feed.items| <= MaxExhibitions
    ensures response.FetchFailed? ==>
      |feed.items| == 1 && feed.items[0].link == BaseUrl && feed.items[0].uniqueId == FallbackId
    ensures response.Fetched? ==>
      var cards := VisitedCards(response.document);
      feed.items == [] <==> forall i :: 0 <= i < |cards| ==> !IsValid(Parse(cards[i], md5, now))
  {
    exposiciones := FetchExposiciones(response, md5, now);
    feed := new Feed(FeedTitle, FeedLink, FeedDescription, FeedLanguage, FeedUrl);
    AddItems(feed, exposiciones);
    ItemsCarryRecords(exposiciones);
    if response.Fetched? {
      NothingValidMeansEmpty(VisitedCards(response.document), md5, now);
    }
  }
}
