# Blog client model

A Dafny model of the logic inside `blog.js`, the browser client of the
AIronLab blog. The client fetches the list of posts from a REST endpoint and
renders one card per post into `#blog-posts`. It fetches a single post when
one is opened and shows it in an overlay appended to `document.body`. A
loading indicator (`#blog-loader`) and an error banner (`#blog-error`)
report progress and failures.

The model has four modules for the script's components plus two helper
modules (`Wrappers` and `Strings`):

- `Wrappers` holds `Option`. A JavaScript `null` result or a missing
  element is `None`.
- `Strings` holds reference definitions of `split` with a one-character
  separator and `join`, as JavaScript defines them (blog.js calls only
  `join`; the LF replacement of `formatContent` is proved equal to a
  split followed by a join), plus a template literal seen as literal pieces
  interleaved with interpolated values (`Fill`). It also proves that
  `split` and `join` are inverse to each other.
- `Content` models `formatContent`, the two regular-expression
  replacements that turn a post body into paragraph markup.
- `Envelope` models JSON values as far as JavaScript truthiness tells them
  apart, the `{ success, data }` envelope, the acceptance test
  `data.success && data.data`, and `loadBlogPost`.
- `Templates` models the card template, the empty-state message, the
  `posts.map(...).join('')` list, and the overlay template.
- `Page` has the class `PageView`, which stands in for the DOM. Its fields
  are the loader's and the banner's visibility, the banner text, the
  container's `innerHTML` (`None` when the page has no container) and the
  `.post-modal` overlays in document order. `showLoading`, `showError`,
  `displayBlogPosts`, `loadBlogPosts`, `openPost` and `closePostModal` are
  its methods. Each asynchronous handler is one step that takes the network
  answer it awaits as a parameter.

`formatContent` replaces every LF first and wraps the result second. So
`"a\nb"` gives `"<p>a</p><p>b</p>"` and `"\n"` gives `"<p></p><p></p>"`. A
CR, U+2028 or U+2029 anywhere in the input leaves the result without the
outer paragraph.

## Model

| member | source | states |
|---|---|---|
| `Content.FormatContent` | blog.js:137-139 | The result has no LF. The empty string gives the empty string. The outer `<p>…</p>` is added exactly when the input is non-empty and has no CR, U+2028 or U+2029. |
| `Content.FormatContentShape` | blog.js:138 | For every input, the result is the input split at LF and joined with `</p><p>`. It is wrapped in `<p>…</p>` exactly when the input is non-empty and has no other line terminator; otherwise it is not wrapped. |
| `Content.ReplaceNewlinesIsJoin` | blog.js:138 | The global LF replacement equals split-at-LF joined with `</p><p>`. So each LF becomes exactly one `</p><p>`, and the text between LFs keeps its order. |
| `Content.ReplaceNewlinesKeepsOthers` | blog.js:138 | After the first replacement no LF is left. Each character other than LF and those of `</p><p>`, so each of CR, U+2028 and U+2029 separately, occurs in the result exactly when it occurs in the input. The result is empty only for empty input. |
| `Content.MatchesWholeLineIff` | blog.js:138 | The anchored, non-multiline `^(.+)$` matches a string exactly when it is non-empty and has no line terminator. |
| `Strings.JoinSplit` | blog.js:138 | Joining LF-free lines with LF and splitting the result at LF gives the lines back. Together with `LineCount`, splitting at LF and joining with LF are inverse to each other. |
| `Content.LineCount` | blog.js:138 | The input has one more line than it has LFs, and joining the lines with LF gives the input back. |
| `Content.ReplaceNewlinesConcat` | blog.js:138 | The LF replacement distributes over concatenation. |
| `Content.ReplaceNewlinesNoLf` | blog.js:138 | Text without LF passes the first replacement unchanged. |
| `Content.FormatContentTwoLines` | blog.js:138 | Two lines without any line terminator, joined by LF, become `<p>x</p><p>y</p>`. |
| `Content.FormatContentCrlf` | blog.js:138 | Two lines joined by CR LF become `x\r</p><p>y`: the break is inserted but there is no outer paragraph. |
| `Content.FormatContentExamples` | blog.js:138 | `""` gives `""`, `"a\nb"` gives `"<p>a</p><p>b</p>"`, and `"\n"` gives `"<p></p><p></p>"`. |
| `Envelope.LoadBlogPost` | blog.js:27-41 | Returns the `data` payload exactly when `success` and `data` are both truthy, and the returned value is then truthy. Returns `null` on rejection and on a failed fetch or parse, so no error escapes. |
| `Envelope.AcceptanceExamples` | blog.js:12 | `{success: true, data: []}` is accepted. `success: false` rejects any `data`. A `data` of `null`, `0`, `""`, `false` or missing is rejected. |
| `Templates.ExcerptText` | blog.js:74 | The excerpt is never empty. A missing, `null` or empty excerpt becomes `'Краткое описание недоступно'`; any other excerpt is kept. |
| `Templates.CardShowsPost` | blog.js:61-80 | A card contains the post's title, author, formatted date and excerpt text, plus the call `openPost(id)` with the post's own id. It begins with the `article.blog-post-card` opening and ends with its closing. |
| `Templates.ListMarkupSingle` | blog.js:61-80 | A one-post list renders as exactly that post's card. |
| `Templates.ListMarkupAppend` | blog.js:61-80 | Rendering a concatenated list gives the concatenation of the renderings of its parts. |
| `Templates.ListMarkupAt` | blog.js:61-80 | The list markup is exactly one card per post, in input order: post `i`'s card sits between the cards of the posts before it and those after it. |
| `Templates.OverlayShowsPost` | blog.js:95-113 | The overlay contains the post's title, author, formatted date and its content after `formatContent`. It begins with the `div.modal-content` opening and ends with its closing. |
| `Page.ClassifyList` | blog.js:5-24 | A failed fetch or parse takes the connection-error path. A rejected envelope takes the rejection path. An accepted envelope with no container draws nothing. An accepted array with a container is drawn. Accepted non-array data with a container makes `posts.map` throw and takes the connection-error path. Each condition is an if-and-only-if. |
| `Page.PageView.ShowLoading` | blog.js:141-146 | Sets the loader's visibility when the loader exists, and changes nothing otherwise. |
| `Page.PageView.ShowError` | blog.js:148-156 | Sets the banner's visibility when the banner exists. Replaces its text only with a non-empty message, so `showError(false)` keeps the previous text. Changes nothing without a banner. |
| `Page.PageView.DisplayBlogPosts` | blog.js:44-81 | With no container, nothing changes. With zero posts, the container holds the empty-state markup. Otherwise it holds the list markup, one card per post in order. |
| `Page.PageView.LoadBlogPosts` | blog.js:5-24 | The loader ends hidden on every path. A drawn list hides the banner and keeps its text. A rejected envelope shows `'Не удалось загрузить статьи'`. A failure shows `'Ошибка подключения к серверу'`. The container changes only when the list is drawn. |
| `Page.PageView.OpenPost` | blog.js:84-117 | Alerts exactly when `loadBlogPost` gives `null`, and then the overlays are unchanged. With a post, exactly one overlay with its markup is appended after the existing ones. |
| `Page.PageView.ClosePostModal` | blog.js:120-125 | Removes only the first overlay. Does nothing when there is none. |
| `Page.OverlaysStack` | blog.js:115 | Opening two posts without closing leaves two overlays, the older first. One close then leaves only the newer one. |

## Left out

- `fetch`, `response.json()`, `console.error` and `alert` are left out because they are I/O. The parsed envelope, or a transport/parse failure, is a parameter instead. `OpenPost` reports the alert as a boolean result.
- `formatDate` is left out because its output depends on `Date` parsing and `Intl` formatting for the `ru-RU` locale. It is a parameter of type `string -> string` wherever a template uses it.
- Overlapping asynchronous runs of `loadBlogPosts` or `openPost`, where the last response wins, are not modelled. Each call is one atomic step.
- The `DOMContentLoaded` listener and `refreshBlog` are not modelled: they only call `loadBlogPosts`.
- Styles are reduced to a visible/hidden flag. `innerHTML` holds the assigned string, not the DOM the browser parses from it. Markup is concatenated raw, with no escaping, as in the source.
- Post fields hold the text their interpolation produces. An `id`, `title` or `author` that is not a string, and its conversion to text, are not modelled. `excerpt` is either a string or absent/`null`.
- An array payload whose entries are not post objects, and a non-array object with a `length` of 0, are not modelled. `Obj` stands for a non-array object other than one with `length` 0 (list) or a post object (single post); on the list path it makes `posts.map` throw. On the single-post path a truthy array that is not a post object behaves like `Obj` (`post.content.replace` throws) and is written as `Obj`.
- `Page.PageView.OpenPost` does not model the unhandled rejection raised when an accepted, truthy `data` is not a post object (`post.content.replace` throws). It only states that no overlay is appended and no alert is shown. A post whose `content` is not a string (`(5).replace` throws the same way) is not modelled: `FullPost.content` is always a string.
- `Page.PageView.ClosePostModal` assumes that the overlays are the only `.post-modal` elements in the document. Raw post markup that contains that class could be found first by `querySelector`; this is not modelled.
- JavaScript strings are sequences of UTF-16 code units; the model's `string` is a sequence of Unicode scalar values, so a lone surrogate cannot be represented. No modelled behaviour depends on this: `.` matches every code unit except the four line terminators, and all of them are single code units.
