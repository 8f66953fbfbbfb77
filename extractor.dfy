/** The record extractor of the museum feed generator: how one candidate
    container becomes an exhibition record (title, description, link, date
    hint, content-derived id), the acceptance test applied to each record,
    and the single synthetic record used when the page cannot be fetched. */
module Extractor {
  import opened Seqs
  import opened Text
  import opened Dom

  /** A reading of the wall clock; the model never looks inside it. */
  type Timestamp = int

  /** One exhibition record, with the keys the generator's dictionaries use. */
  datatype Exhibition = Exhibition(
    id: string,
    title: string,
    link: string,
    description: string,
    dateText: string,
    pubDate: Timestamp)

  /** The listing page, also the default link of a record. */
  const BaseUrl := "https://www.museoreinasofia.es/exposiciones"
  /** The origin that root-relative hrefs are resolved against. */
  const SiteOrigin := "https://www.museoreinasofia.es"
  const PlaceholderTitle := "Exposición Temporal"
  const DefaultDescription := "Exposición temporal en el Museo Reina Sofía"
  const HeadingTags := {"h1", "h2", "h3", "h4"}
  const DescriptionTags := {"p", "span", "div"}
  const DateKeywords := ["hasta", "del", "desde", "2024", "2025", "enero", "febrero", "marzo"]
  const MaxTitleLength := 100
  const Ellipsis := "..."
  const MaxDescriptionLength := 200
  const MaxDateTextLength := 100

  const FallbackId := "fallback1"
  const FallbackTitle := "Exposiciones del Museo Reina Sofía"
  const FallbackDescription := "Consulta la web oficial para las exposiciones actuales"
  const FallbackDateText := "Actualizado semanalmente"

  /** The element the title is read from: the first h1-h4 heading, else the
      first anchor, else the first strong element. */
  function TitleElement(container: Node): (r: Option<Node>)
    ensures r.Some? ==> r.value in Descendants(container)
    ensures r.Some? ==> r.value.tag in HeadingTags || r.value.tag == "a" || r.value.tag == "strong"
    ensures (exists d :: d in Descendants(container) && d.tag in HeadingTags) ==>
      r.Some? && r.value.tag in HeadingTags
    ensures r.None? <==>
      forall d :: d in Descendants(container) ==> d.tag !in HeadingTags && d.tag != "a" && d.tag != "strong"
    ensures Find(container, HeadingTags).Some? ==> r == Find(container, HeadingTags)
    ensures Find(container, HeadingTags).None? && Find(container, {"a"}).Some? ==> r == Find(container, {"a"})
    ensures Find(container, HeadingTags).None? && Find(container, {"a"}).None? ==> r == Find(container, {"strong"})
  {
    var heading := Find(container, HeadingTags);
    if heading.Some? then heading
    else
      var anchor := Find(container, {"a"});
      if anchor.Some? then anchor else Find(container, {"strong"})
  }

  /** Title cleaning: a title longer than 100 characters keeps its first 100
      and gains "..."; a shorter one is kept as it is. */
  function CleanTitle(raw: string): (title: string)
    ensures |title| <= MaxTitleLength + |Ellipsis|
    ensures |raw| <= MaxTitleLength ==> title == raw
    ensures |raw| > MaxTitleLength ==>
      |title| == MaxTitleLength + |Ellipsis| && raw[..MaxTitleLength] <= title && title[MaxTitleLength..] == Ellipsis
  {
    if |raw| > MaxTitleLength then raw[..MaxTitleLength] + Ellipsis else raw
  }

  /** The title of a container: the cleaned stripped text of its title
      element, or the placeholder when it has none. */
  function ExtractTitle(container: Node): (title: string)
    ensures |title| <= MaxTitleLength + |Ellipsis|
    ensures TitleElement(container).None? ==> title == PlaceholderTitle
    ensures TitleElement(container).Some? ==> title == CleanTitle(TitleElement(container).value.strippedText)
  {
    match TitleElement(container)
    case Some(elem) => CleanTitle(elem.strippedText)
    case None => PlaceholderTitle
  }

  /** The description: at most 200 characters from the start of the stripped
      text of the first p, span or div descendant (possibly empty), or the
      default sentence when there is no such descendant. */
  function ExtractDescription(container: Node): (description: string)
    ensures |description| <= MaxDescriptionLength
    ensures Find(container, DescriptionTags).None? ==> description == DefaultDescription
    ensures Find(container, DescriptionTags).Some? ==>
      var text := Find(container, DescriptionTags).value.strippedText;
      && description <= text
      && |description| == if |text| <= MaxDescriptionLength then |text| else MaxDescriptionLength
  {
    match Find(container, DescriptionTags)
    case Some(elem) => Take(elem.strippedText, MaxDescriptionLength)
    case None => DefaultDescription
  }

  /** An href starting with "/" is resolved against the site origin; any
      other href, relative or absolute, is kept verbatim. */
  function ResolveLink(href: string): (link: string)
    ensures "/" <= href ==> link == SiteOrigin + href
    ensures !("/" <= href) ==> link == href
  {
    if "/" <= href then SiteOrigin + href else href
  }

  /** Resolving twice changes nothing: a resolved root-relative link starts
      with the origin's "https://" and no longer with "/". */
  lemma ResolveLinkIdempotent(href: string)
    ensures ResolveLink(ResolveLink(href)) == ResolveLink(href)
  {
    if "/" <= href {
      assert ResolveLink(href)[0] == 'h';
    }
  }

  /** A root-relative href becomes a URL on the museum's own site, with the
      href's path right after the origin. */
  lemma RootRelativeLinkIsOnSite(href: string)
    requires "/" <= href
    ensures SiteOrigin + "/" <= ResolveLink(href)
    ensures ResolveLink(href)[|SiteOrigin|..] == href
  {
    assert (SiteOrigin + href)[|SiteOrigin|] == href[0] == '/';
  }

  /** The link of a container: its first anchor with an href, resolved, or the
      listing page when no anchor has one. */
  function ExtractLink(container: Node): (link: string)
    ensures FindAnchorWithHref(container).None? ==> link == BaseUrl
    ensures FindAnchorWithHref(container).Some? ==>
      link == ResolveLink(FindAnchorWithHref(container).value.href.value)
  {
    match FindAnchorWithHref(container)
    case Some(anchor) => ResolveLink(anchor.href.value)
    case None => BaseUrl
  }

  /** The lower-cased container text contains one of the date keywords. */
  predicate HasDateKeyword(text: string)
  {
    exists k :: 0 <= k < |DateKeywords| && Contains(Lower(text), DateKeywords[k])
  }

  /** Every date keyword is non-empty, so text that mentions one is non-empty. */
  lemma DateKeywordNeedsText(text: string)
    requires HasDateKeyword(text)
    ensures |text| >= 3
  {
    var k :| 0 <= k < |DateKeywords| && Contains(Lower(text), DateKeywords[k]);
    ContainsIsNoLonger(Lower(text), DateKeywords[k]);
  }

  /** The date hint: the first 100 characters of the container's full text
      (in its original case) when that text mentions a date keyword, and the
      empty string otherwise. */
  function ExtractDateText(container: Node): (dateText: string)
    ensures dateText != "" <==> HasDateKeyword(container.text)
    ensures dateText != "" ==>
      && dateText <= container.text
      && |dateText| == if |container.text| <= MaxDateTextLength then |container.text| else MaxDateTextLength
  {
    var text := container.text;
    if HasDateKeyword(text) then
      DateKeywordNeedsText(text);
      Take(text, MaxDateTextLength)
    else ""
  }

  /** Turns one container into a record. The id is the hex digest of the
      title followed by the description; `md5` stands for that digest and
      `now` for the clock reading taken while parsing. */
  function Parse(container: Node, md5: string -> string, now: Timestamp): Exhibition
  {
    var title := ExtractTitle(container);
    var description := ExtractDescription(container);
    Exhibition(md5(title + description), title, ExtractLink(container), description,
      ExtractDateText(container), now)
  }

  /** What every parsed record looks like: a title of at most 103
      characters, a description of at most 200, a date hint that is non-empty
      exactly when the container text mentions a date keyword, and an id that
      is the digest of the title followed by the description. */
  lemma ParsedRecordShape(container: Node, md5: string -> string, now: Timestamp)
    ensures var e := Parse(container, md5, now);
      && |e.title| <= MaxTitleLength + |Ellipsis|
      && |e.description| <= MaxDescriptionLength
      && (e.dateText != "" <==> HasDateKeyword(container.text))
      && e.id == md5(e.title + e.description)
      && e.pubDate == now
  {
  }

  /** The id is stable: two containers that yield the same title and
      description get the same id, whatever else differs between them. */
  lemma IdDependsOnlyOnTitleAndDescription(c1: Node, c2: Node, md5: string -> string, t1: Timestamp, t2: Timestamp)
    requires ExtractTitle(c1) + ExtractDescription(c1) == ExtractTitle(c2) + ExtractDescription(c2)
    ensures Parse(c1, md5, t1).id == Parse(c2, md5, t2).id
  {
  }

  /** The acceptance test: a non-empty title, not the placeholder, longer
      than three characters. No other field is looked at. */
  predicate IsValid(e: Exhibition)
  {
    e.title != "" && e.title != PlaceholderTitle && |e.title| > 3
  }

  /** A container with no heading, anchor or strong element gets the
      placeholder title, so its record is always rejected. */
  lemma UntitledContainerIsRejected(container: Node, md5: string -> string, now: Timestamp)
    requires TitleElement(container).None?
    ensures !IsValid(Parse(container, md5, now))
  {
  }

  /** The title is the placeholder exactly when the container has no title
      element or the title element's own stripped text is the placeholder
      sentence: cleaning never produces the placeholder from other text. */
  lemma PlaceholderTitleIffNoTitleText(container: Node)
    ensures ExtractTitle(container) == PlaceholderTitle <==>
      TitleElement(container).None? || TitleElement(container).value.strippedText == PlaceholderTitle
  {
    if TitleElement(container).Some? {
      var raw := TitleElement(container).value.strippedText;
      if |raw| > MaxTitleLength {
        assert |CleanTitle(raw)| == MaxTitleLength + |Ellipsis| != |PlaceholderTitle|;
      }
    }
  }

  /** An accepted record's title has 4 to 103 characters. */
  lemma ValidTitleLength(container: Node, md5: string -> string, now: Timestamp)
    ensures IsValid(Parse(container, md5, now)) ==>
      4 <= |Parse(container, md5, now).title| <= MaxTitleLength + |Ellipsis|
  {
  }

  /** The single synthetic record returned when the page cannot be fetched. */
  function FallbackData(now: Timestamp): (r: seq<Exhibition>)
    ensures |r| == 1
    ensures r[0].id == FallbackId && r[0].link == BaseUrl
    ensures IsValid(r[0])
  {
    [Exhibition(FallbackId, FallbackTitle, BaseUrl, FallbackDescription, FallbackDateText, now)]
  }
}
