/**
 * The markup templates of blog.js: the post card and the empty-state
 * message of `displayBlogPosts` (blog.js:52-80) and the body of the post
 * overlay of `openPost` (blog.js:95-113). Fields are interpolated raw, with
 * no escaping, exactly as the template literals do. `formatDate` is a
 * parameter: its locale formatting is not part of this model.
 */
module Templates {
  import opened Wrappers
  import opened Strings
  import opened Content

  /** A post as the list endpoint returns it. Each field is the text its
      interpolation produces; `excerpt` is `None` when absent or `null`. */
  datatype ListedPost = ListedPost(
    id: string, title: string, author: string, createdAt: string, excerpt: Option<string>)

  /** A post as the single-post endpoint returns it. */
  datatype FullPost = FullPost(
    id: string, title: string, author: string, createdAt: string, content: string)

  const ExcerptPlaceholder: string := "Краткое описание недоступно"

  const EmptyListMarkup: string :=
    "\n      <div class=\"no-posts\">\n        <p>Статьи скоро появятся!</p>\n      </div>\n    "

  // The literal pieces of the card template, between its interpolations.
  const CardStart: string :=
    "\n    <article class=\"blog-post-card\">\n      <div class=\"post-header\">\n"
    + "        <h3 class=\"post-title\">\n          <a href=\"#\" onclick=\""
  const CardAfterCall: string := "; return false;\">"
  const CardAfterTitle: string :=
    "</a>\n        </h3>\n        <div class=\"post-meta\">\n          <span class=\"author\">Автор: "
  const CardAfterAuthor: string := "</span>\n          <span class=\"date\">"
  const CardAfterDate: string :=
    "</span>\n        </div>\n      </div>\n      \n      <div class=\"post-content\">\n"
    + "        <p class=\"post-excerpt\">"
  const CardAfterExcerpt: string := "</p>\n        <button class=\"read-more-btn\" onclick=\""
  const CardEnd: string :=
    "\">\n          Читать далее →\n        </button>\n      </div>\n    </article>\n  "

  // The literal pieces of the overlay template.
  const ModalStart: string := "\n    <div class=\"modal-content\">\n      <div class=\"modal-header\">\n        <h2>"
  const ModalAfterTitle: string :=
    "</h2>\n        <button class=\"close-btn\" onclick=\"closePostModal()\">&times;</button>\n"
    + "      </div>\n      \n      <div class=\"modal-body\">\n        <div class=\"post-meta\">\n"
    + "          <span>Автор: "
  const ModalAfterAuthor: string := "</span>\n          <span>Дата: "
  const ModalAfterDate: string :=
    "</span>\n        </div>\n        \n        <div class=\"post-full-content\">\n          "
  const ModalEnd: string := "\n        </div>\n      </div>\n    </div>\n  "

  /** The inline handler `openPost(${post.id})`. */
  function OpenPostCall(id: string): string
  {
    "openPost(" + id + ")"
  }

  /** `post.excerpt || 'Краткое описание недоступно'`: a missing, `null` or
      empty excerpt is replaced by the placeholder, any other is kept. */
  function ExcerptText(excerpt: Option<string>): (r: string)
    ensures r != ""
    ensures excerpt.None? || excerpt.value == "" ==> r == ExcerptPlaceholder
    ensures excerpt.Some? && excerpt.value != "" ==> r == excerpt.value
  {
    match excerpt
    case Some(e) => if e != "" then e else ExcerptPlaceholder
    case None => ExcerptPlaceholder
  }

  /** `${...}` of one card, in template order. */
  function CardHoles(p: ListedPost, formatDate: string -> string): seq<string>
  {
    [OpenPostCall(p.id), p.title, p.author, formatDate(p.createdAt),
     ExcerptText(p.excerpt), OpenPostCall(p.id)]
  }

  /** One card of `displayBlogPosts`'s template. */
  function CardMarkup(p: ListedPost, formatDate: string -> string): string
  {
    Fill([CardStart, CardAfterCall, CardAfterTitle, CardAfterAuthor, CardAfterDate,
          CardAfterExcerpt, CardEnd], CardHoles(p, formatDate))
  }

  /** A card is one `article.blog-post-card` showing the post's own title,
      author, formatted date and excerpt (or the placeholder), and both its
      title link and its button call `openPost` with the post's id. */
  lemma CardShowsPost(p: ListedPost, formatDate: string -> string)
    ensures var r := CardMarkup(p, formatDate);
            && Contains(r, p.title) && Contains(r, p.author)
            && Contains(r, formatDate(p.createdAt)) && Contains(r, ExcerptText(p.excerpt))
            && Contains(r, OpenPostCall(p.id))
            && CardStart <= r && EndsWith(r, CardEnd)
  {
    var pieces := [CardStart, CardAfterCall, CardAfterTitle, CardAfterAuthor, CardAfterDate,
                   CardAfterExcerpt, CardEnd];
    var holes := CardHoles(p, formatDate);
    FillContains(pieces, holes, 0);
    FillContains(pieces, holes, 1);
    FillContains(pieces, holes, 2);
    FillContains(pieces, holes, 3);
    FillContains(pieces, holes, 4);
    FillEnds(pieces, holes);
  }

  /** `posts.map(post => card)`: one card per post, in the same order. */
  function Cards(posts: seq<ListedPost>, formatDate: string -> string): seq<string>
  {
    seq(|posts|, i requires 0 <= i < |posts| => CardMarkup(posts[i], formatDate))
  }

  /** `posts.map(...).join('')`, what a non-empty list puts in the container. */
  function ListMarkup(posts: seq<ListedPost>, formatDate: string -> string): string
  {
    Join(Cards(posts, formatDate), "")
  }

  /** Rendering a list in two parts renders each part and concatenates. */
  lemma ListMarkupAppend(a: seq<ListedPost>, b: seq<ListedPost>, formatDate: string -> string)
    ensures ListMarkup(a + b, formatDate) == ListMarkup(a, formatDate) + ListMarkup(b, formatDate)
  {
    assert Cards(a + b, formatDate) == Cards(a, formatDate) + Cards(b, formatDate);
    JoinConcat(Cards(a, formatDate), Cards(b, formatDate));
  }

  /** A one-post list is that post's card. */
  lemma ListMarkupSingle(p: ListedPost, formatDate: string -> string)
    ensures ListMarkup([p], formatDate) == CardMarkup(p, formatDate)
  {
    assert Cards([p], formatDate) == [CardMarkup(p, formatDate)];
  }

  /** The list markup holds exactly one card per post, in input order: the
      card of post `i` stands between the cards of the posts before it and
      those after it. */
  lemma ListMarkupAt(posts: seq<ListedPost>, i: nat, formatDate: string -> string)
    requires i < |posts|
    ensures ListMarkup(posts, formatDate)
         == ListMarkup(posts[..i], formatDate) + CardMarkup(posts[i], formatDate)
            + ListMarkup(posts[i + 1..], formatDate)
  {
    var before, after := posts[..i], posts[i + 1..];
    var rest := [posts[i]] + after;
    assert posts == before + rest;
    ListMarkupAppend(before, rest, formatDate);
    ListMarkupAppend([posts[i]], after, formatDate);
    ListMarkupSingle(posts[i], formatDate);
    var x, y, z := ListMarkup(before, formatDate), CardMarkup(posts[i], formatDate), ListMarkup(after, formatDate);
    assert ListMarkup(posts, formatDate) == x + (y + z);
    assert x + (y + z) == x + y + z;
  }

  /** `${...}` of the overlay, in template order. */
  function OverlayHoles(p: FullPost, formatDate: string -> string): seq<string>
  {
    [p.title, p.author, formatDate(p.createdAt), FormatContent(p.content)]
  }

  /** The `innerHTML` that `openPost` gives a new overlay. */
  function OverlayMarkup(p: FullPost, formatDate: string -> string): string
  {
    Fill([ModalStart, ModalAfterTitle, ModalAfterAuthor, ModalAfterDate, ModalEnd],
         OverlayHoles(p, formatDate))
  }

  /** The overlay is one `div.modal-content` showing the post's title,
      author, formatted date and its content after `formatContent`,
      interpolated raw. */
  lemma OverlayShowsPost(p: FullPost, formatDate: string -> string)
    ensures var r := OverlayMarkup(p, formatDate);
            && Contains(r, p.title) && Contains(r, p.author)
            && Contains(r, formatDate(p.createdAt)) && Contains(r, FormatContent(p.content))
            && ModalStart <= r && EndsWith(r, ModalEnd)
  {
    var pieces := [ModalStart, ModalAfterTitle, ModalAfterAuthor, ModalAfterDate, ModalEnd];
    var holes := OverlayHoles(p, formatDate);
    FillContains(pieces, holes, 0);
    FillContains(pieces, holes, 1);
    FillContains(pieces, holes, 2);
    FillContains(pieces, holes, 3);
    FillEnds(pieces, holes);
  }
}
