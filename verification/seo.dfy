/** The document-head tags a page sets through the SEO component: the page
    title and its " | AMZCOZ" suffix, the canonical URL on the site's origin,
    Open Graph and Twitter card tags, and the description and keywords tags
    that appear only when the page supplies them. */
module Seo {
  import opened JsValue

  /** The component's props; `None` is an omitted prop. */
  datatype Props = Props(
    title: Option<string>,
    description: Option<string>,
    keywords: Option<string>,
    canonical: Option<string>,
    ogType: Option<string>,
    ogImage: Option<string>,
    twitterCard: Option<string>)

  const SiteUrl := "https://amzcoz.com"
  const SiteName := "AMZCOZ"
  const TitleSuffix := " | AMZCOZ"
  const DefaultTitle := "AMZCOZ - Amazon Growth Experts"
  const DefaultOgType := "website"
  const DefaultOgImage := "/og-image.jpg"
  const DefaultTwitterCard := "summary_large_image"

  /** The title shown for a page: its own title with the site suffix, or the
      site's default title when it has none. */
  function FullTitle(title: Option<string>): string {
    if Truthy(title) then title.value + TitleSuffix else DefaultTitle
  }

  /** Reads the page's own title back from a full title. */
  function TitleOf(full: string): (t: Option<string>)
    ensures t.Some? ==> full == t.value + TitleSuffix
  {
    if |full| > |TitleSuffix| && full[|full| - |TitleSuffix|..] == TitleSuffix
    then Some(full[..|full| - |TitleSuffix|])
    else None
  }

  /** The page title is recoverable from the full title, and the default
      title is never mistaken for a page's own. */
  lemma TitleRoundTrip(title: Option<string>)
    ensures TitleOf(FullTitle(title)) == if Truthy(title) then Some(title.value) else None
  {
    if Truthy(title) {
      var full := title.value + TitleSuffix;
      assert full[|full| - |TitleSuffix|..] == TitleSuffix;
      assert full[..|full| - |TitleSuffix|] == title.value;
    } else {
      assert DefaultTitle[|DefaultTitle| - 1] != TitleSuffix[|TitleSuffix| - 1];
    }
  }

  /** Two pages share a full title exactly when both lack a title or both
      have the same one. */
  lemma FullTitleInjective(a: Option<string>, b: Option<string>)
    ensures FullTitle(a) == FullTitle(b) <==>
      (Truthy(a) <==> Truthy(b)) && (Truthy(a) ==> a.value == b.value)
  {
    TitleRoundTrip(a);
    TitleRoundTrip(b);
  }

  /** The canonical URL: the site origin followed by the page's path, or the
      bare origin when the page gives none. */
  function CanonicalUrl(canonical: Option<string>): string {
    if Truthy(canonical) then SiteUrl + canonical.value else SiteUrl
  }

  /** The part of a URL after the site origin, if it starts with the origin. */
  function PathOf(url: string): (p: Option<string>)
    ensures p.Some? ==> url == SiteUrl + p.value
  {
    if |url| >= |SiteUrl| && url[..|SiteUrl|] == SiteUrl then Some(url[|SiteUrl|..]) else None
  }

  /** Every canonical URL lies on the site, and its path is the page's own,
      an omitted and an empty path both giving the bare origin. */
  lemma CanonicalRoundTrip(canonical: Option<string>)
    ensures PathOf(CanonicalUrl(canonical)) == Some(Or(canonical, ""))
  {
    var url := CanonicalUrl(canonical);
    assert url[..|SiteUrl|] == SiteUrl;
    assert url[|SiteUrl|..] == Or(canonical, "");
  }

  /** The image URL shared by the Open Graph and Twitter tags. */
  function ImageUrl(p: Props): string {
    SiteUrl + WithDefault(p.ogImage, DefaultOgImage)
  }

  // ----- The tags -----

  /** The identity of each tag the component can emit. */
  datatype Key =
    | TitleElement | MetaTitle | Description | Keywords | Canonical
    | OgType | OgUrl | OgTitle | OgDescription | OgImage | OgSiteName
    | TwitterCard | TwitterUrl | TwitterTitle | TwitterDescription | TwitterImage

  /** How each tag is written: element, identifying attribute and its value. */
  function Markup(k: Key): (string, string, string) {
    match k
    case TitleElement => ("title", "", "")
    case MetaTitle => ("meta", "name", "title")
    case Description => ("meta", "name", "description")
    case Keywords => ("meta", "name", "keywords")
    case Canonical => ("link", "rel", "canonical")
    case OgType => ("meta", "property", "og:type")
    case OgUrl => ("meta", "property", "og:url")
    case OgTitle => ("meta", "property", "og:title")
    case OgDescription => ("meta", "property", "og:description")
    case OgImage => ("meta", "property", "og:image")
    case OgSiteName => ("meta", "property", "og:site_name")
    case TwitterCard => ("meta", "name", "twitter:card")
    case TwitterUrl => ("meta", "name", "twitter:url")
    case TwitterTitle => ("meta", "name", "twitter:title")
    case TwitterDescription => ("meta", "name", "twitter:description")
    case TwitterImage => ("meta", "name", "twitter:image")
  }

  /** No two tags are written alike: the element and its identifying
      attribute tell every key apart, so no tag the component writes stands
      in for another. */
  lemma MarkupIdentifiesKey(a: Key, b: Key)
    ensures Markup(a) == Markup(b) <==> a == b
  {
  }

  /** A tag and its content (the text, `content` or `href`). */
  datatype Tag = Tag(key: Key, content: string)

  /** The description tags, emitted together or not at all. */
  function DescriptionTag(p: Props, k: Key): seq<Tag> {
    if Truthy(p.description) then [Tag(k, p.description.value)] else []
  }

  /** The title tags that open the head. */
  function TitleTags(p: Props): seq<Tag> {
    [Tag(TitleElement, FullTitle(p.title)), Tag(MetaTitle, FullTitle(p.title))]
  }

  function KeywordsTag(p: Props): seq<Tag> {
    if Truthy(p.keywords) then [Tag(Keywords, p.keywords.value)] else []
  }

  /** The canonical link and the Open Graph tags before the description. */
  function OpenGraphTags(p: Props): seq<Tag> {
    var url := CanonicalUrl(p.canonical);
    [Tag(Canonical, url), Tag(OgType, WithDefault(p.ogType, DefaultOgType)),
     Tag(OgUrl, url), Tag(OgTitle, FullTitle(p.title))]
  }

  /** The Open Graph tags after the description and the Twitter tags before it. */
  function CardTags(p: Props): seq<Tag> {
    var url := CanonicalUrl(p.canonical);
    [Tag(OgImage, ImageUrl(p)), Tag(OgSiteName, SiteName),
     Tag(TwitterCard, WithDefault(p.twitterCard, DefaultTwitterCard)),
     Tag(TwitterUrl, url), Tag(TwitterTitle, FullTitle(p.title))]
  }

  /** The tags in the order the component writes them. */
  function Head(p: Props): (tags: seq<Tag>)
    ensures |tags| == 12 + (if Truthy(p.description) then 3 else 0) + (if Truthy(p.keywords) then 1 else 0)
  {
    TitleTags(p) + DescriptionTag(p, Description) + KeywordsTag(p)
    + OpenGraphTags(p) + DescriptionTag(p, OgDescription)
    + CardTags(p) + DescriptionTag(p, TwitterDescription)
    + [Tag(TwitterImage, ImageUrl(p))]
  }

  /** What each tag should carry, tag by tag: the full title in all four title
      tags, the canonical URL in all three URL tags, the description in all
      three description tags when there is one, the keywords when there are
      some, the image on the site's origin and the declared defaults. */
  function Expected(p: Props, k: Key): Option<string> {
    match k
    case TitleElement | MetaTitle | OgTitle | TwitterTitle => Some(FullTitle(p.title))
    case Canonical | OgUrl | TwitterUrl => Some(CanonicalUrl(p.canonical))
    case Description | OgDescription | TwitterDescription =>
      if Truthy(p.description) then p.description else None
    case Keywords => if Truthy(p.keywords) then p.keywords else None
    case OgType => Some(WithDefault(p.ogType, DefaultOgType))
    case OgImage | TwitterImage => Some(ImageUrl(p))
    case OgSiteName => Some(SiteName)
    case TwitterCard => Some(WithDefault(p.twitterCard, DefaultTwitterCard))
  }

  /** Every tag in `tags` carries what the table gives for its key. */
  predicate Agrees(p: Props, tags: seq<Tag>) {
    forall i | 0 <= i < |tags| :: Expected(p, tags[i].key) == Some(tags[i].content)
  }

  lemma AgreesAppend(p: Props, a: seq<Tag>, b: seq<Tag>)
    requires Agrees(p, a) && Agrees(p, b)
    ensures Agrees(p, a + b)
  {
    forall i | 0 <= i < |a + b| ensures Expected(p, (a + b)[i].key) == Some((a + b)[i].content) {
      if i < |a| { assert (a + b)[i] == a[i]; } else { assert (a + b)[i] == b[i - |a|]; }
    }
  }

  /** Nothing in the head contradicts the table. */
  lemma HeadAgrees(p: Props)
    ensures Agrees(p, Head(p))
  {
    var tw := [Tag(TwitterImage, ImageUrl(p))];
    assert Agrees(p, TitleTags(p)) && Agrees(p, KeywordsTag(p)) && Agrees(p, tw);
    assert Agrees(p, OpenGraphTags(p)) && Agrees(p, CardTags(p));
    assert Agrees(p, DescriptionTag(p, Description));
    assert Agrees(p, DescriptionTag(p, OgDescription));
    assert Agrees(p, DescriptionTag(p, TwitterDescription));
    AgreesAppend(p, TitleTags(p), DescriptionTag(p, Description));
    var h1 := TitleTags(p) + DescriptionTag(p, Description);
    AgreesAppend(p, h1, KeywordsTag(p));
    var h2 := h1 + KeywordsTag(p);
    AgreesAppend(p, h2, OpenGraphTags(p));
    var h3 := h2 + OpenGraphTags(p);
    AgreesAppend(p, h3, DescriptionTag(p, OgDescription));
    var h4 := h3 + DescriptionTag(p, OgDescription);
    AgreesAppend(p, h4, CardTags(p));
    var h5 := h4 + CardTags(p);
    AgreesAppend(p, h5, DescriptionTag(p, TwitterDescription));
    var h6 := h5 + DescriptionTag(p, TwitterDescription);
    AgreesAppend(p, h6, tw);
  }

  /** Every tag the table calls for is in the head. */
  lemma HeadCovers(p: Props, k: Key)
    requires Expected(p, k).Some?
    ensures Tag(k, Expected(p, k).value) in Head(p)
  {
    var t := Tag(k, Expected(p, k).value);
    var h := Head(p);
    var s1 := TitleTags(p) + DescriptionTag(p, Description) + KeywordsTag(p);
    var s2 := s1 + OpenGraphTags(p) + DescriptionTag(p, OgDescription);
    var s3 := s2 + CardTags(p) + DescriptionTag(p, TwitterDescription);
    assert h == s3 + [Tag(TwitterImage, ImageUrl(p))];
    match k
    case TitleElement | MetaTitle | Description | Keywords =>
      assert t in s1;
    case Canonical | OgType | OgUrl | OgTitle | OgDescription =>
      assert t in s2;
    case OgImage | OgSiteName | TwitterCard | TwitterUrl | TwitterTitle | TwitterDescription =>
      assert t in s3;
    case TwitterImage =>
  }

  /** The head holds a tag exactly when the table calls for it, with the
      content the table gives. */
  lemma HeadFollowsTable(p: Props, k: Key, v: string)
    ensures Tag(k, v) in Head(p) <==> Expected(p, k) == Some(v)
  {
    HeadAgrees(p);
    if Expected(p, k) == Some(v) {
      HeadCovers(p, k);
    }
  }

  /** A page without a description or keywords gets none of those four tags;
      one with a description gets all three description tags. */
  lemma DescriptionAllOrNothing(p: Props)
    ensures !Truthy(p.description) ==> forall v ::
      Tag(Description, v) !in Head(p) && Tag(OgDescription, v) !in Head(p) && Tag(TwitterDescription, v) !in Head(p)
    ensures !Truthy(p.keywords) ==> forall v :: Tag(Keywords, v) !in Head(p)
    ensures Truthy(p.description) ==> var d := p.description.value;
      Tag(Description, d) in Head(p) && Tag(OgDescription, d) in Head(p) && Tag(TwitterDescription, d) in Head(p)
  {
    forall v ensures Expected(p, Description) == Some(v) <==> Tag(Description, v) in Head(p) {
      HeadFollowsTable(p, Description, v);
    }
    forall v ensures Expected(p, OgDescription) == Some(v) <==> Tag(OgDescription, v) in Head(p) {
      HeadFollowsTable(p, OgDescription, v);
    }
    forall v ensures Expected(p, TwitterDescription) == Some(v) <==> Tag(TwitterDescription, v) in Head(p) {
      HeadFollowsTable(p, TwitterDescription, v);
    }
    forall v ensures Expected(p, Keywords) == Some(v) <==> Tag(Keywords, v) in Head(p) {
      HeadFollowsTable(p, Keywords, v);
    }
  }

  /** The defaults of an omitted prop: the site's default title on the bare
      origin, a "website" card type and the site-wide image. An explicitly
      empty `ogImage` is kept, leaving the bare origin as the image. */
  lemma Defaults(p: Props)
    requires p.title.None? && p.canonical.None? && p.ogType.None? && p.ogImage.None? && p.twitterCard.None?
    ensures Tag(TitleElement, "AMZCOZ - Amazon Growth Experts") in Head(p)
    ensures Tag(Canonical, "https://amzcoz.com") in Head(p)
    ensures Tag(OgType, "website") in Head(p)
    ensures Tag(OgImage, SiteUrl + DefaultOgImage) in Head(p)
    ensures Tag(TwitterCard, "summary_large_image") in Head(p)
    ensures ImageUrl(p.(ogImage := Some(""))) == SiteUrl
  {
    HeadCovers(p, TitleElement);
    HeadCovers(p, Canonical);
    HeadCovers(p, OgType);
    HeadCovers(p, OgImage);
    HeadCovers(p, TwitterCard);
  }
}
