/**
  The public product page a QR code points to (`product_public_view`): it
  shows the product as the CRM describes it now, falling back field by
  field to the snapshot stored with the link, and shows the snapshot alone
  when the CRM does not return the product.
 */
module QrPublic {
  import opened Wrappers
  import opened PyStr

  /** What the CRM returns for a product (`ProductInfo`). */
  datatype ProductInfo = ProductInfo(id: int, name: string, price: string, currency: string, description: string, image: string)

  /** A stored `ProductLink`: its key, the product id and the cached snapshot. */
  datatype ProductLink = ProductLink(
    pk: string,
    productId: nat,
    titleCached: string,
    imgUrlCached: string,
    priceCached: string,
    currencyCached: string,
    descriptionCached: string)

  /** The context the page is rendered with. */
  datatype PublicPage = PublicPage(
    title: string,
    picture: string,
    price: string,
    currency: string,
    description: string,
    productId: nat,
    linkId: string)

  /** `a or b` for strings. */
  function Or(a: string, b: string): string {
    if a != "" then a else b
  }

  /** `f"Товар {product_id}"`. */
  function PlaceholderTitle(productId: nat): string {
    "Товар " + NatToString(productId)
  }

  /** The page for the link, given what `get_product_by_id` returned (`None` when the CRM has no product). */
  function PublicPageOf(link: ProductLink, live: Option<ProductInfo>): (page: PublicPage)
    ensures page.productId == link.productId && page.linkId == link.pk
  {
    match live
    case Some(p) =>
      PublicPage(Or(p.name, link.titleCached), Or(p.image, link.imgUrlCached), p.price, p.currency,
                 Or(p.description, link.descriptionCached), link.productId, link.pk)
    case None =>
      PublicPage(Or(link.titleCached, PlaceholderTitle(link.productId)), link.imgUrlCached, link.priceCached,
                 link.currencyCached, link.descriptionCached, link.productId, link.pk)
  }

  /**
    With a live product, the title, picture and description are the live
    values unless those are empty, when the snapshot's are used; price and
    currency are always the live ones, even when empty.
   */
  lemma LiveFields(link: ProductLink, p: ProductInfo)
    ensures var page := PublicPageOf(link, Some(p));
            (p.name != "" ==> page.title == p.name) && (p.name == "" ==> page.title == link.titleCached) &&
            (p.image != "" ==> page.picture == p.image) && (p.image == "" ==> page.picture == link.imgUrlCached) &&
            (p.description != "" ==> page.description == p.description) &&
            (p.description == "" ==> page.description == link.descriptionCached) &&
            page.price == p.price && page.currency == p.currency
  {
  }

  /**
    Without a live product every field comes from the snapshot, and the
    title is never empty: an empty cached title becomes "Товар <id>".
   */
  lemma CachedFields(link: ProductLink)
    ensures var page := PublicPageOf(link, None);
            page.picture == link.imgUrlCached && page.price == link.priceCached &&
            page.currency == link.currencyCached && page.description == link.descriptionCached &&
            (link.titleCached != "" ==> page.title == link.titleCached) &&
            (link.titleCached == "" ==> page.title == PlaceholderTitle(link.productId)) &&
            page.title != ""
  {
  }

  /** The placeholder title names the product: different products get different titles. */
  lemma PlaceholderInjective(m: nat, n: nat)
    requires PlaceholderTitle(m) == PlaceholderTitle(n)
    ensures m == n
  {
    var prefix := "Товар ";
    assert NatToString(m) == PlaceholderTitle(m)[|prefix|..];
    assert NatToString(n) == PlaceholderTitle(n)[|prefix|..];
    NatToStringInjective(m, n);
  }

  /** The link `qr_form_view` stores for a product: the snapshot of its fields at that time. */
  function LinkFor(pk: string, p: ProductInfo): (link: ProductLink)
    requires p.id >= 0
    ensures var page := PublicPageOf(link, None);
            page.productId == p.id && page.linkId == pk &&
            page.picture == p.image && page.price == p.price && page.currency == p.currency &&
            page.description == p.description && (p.name != "" ==> page.title == p.name)
  {
    ProductLink(pk, p.id, p.name, p.image, p.price, p.currency, p.description)
  }

  /**
    While the CRM still returns the product as it was when the link was
    made, the page shows that product; and the snapshot stands in for it
    unchanged when the CRM stops returning it, provided it had a name.
   */
  lemma SnapshotCoversOutage(pk: string, p: ProductInfo)
    requires p.id >= 0 && p.name != ""
    ensures var link := LinkFor(pk, p);
            PublicPageOf(link, Some(p)) == PublicPageOf(link, None) ==
              PublicPage(p.name, p.image, p.price, p.currency, p.description, p.id, pk)
  {
  }
}
