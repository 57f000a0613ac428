/**
 * The page as the script sees it: the loading indicator `#blog-loader`, the
 * error banner `#blog-error`, the list container `#blog-posts` and the post
 * overlays appended to `document.body`. Each handler of blog.js runs here as
 * one step on this state; the network answer it awaits is a parameter.
 */
module Page {
  import opened Wrappers
  import opened Envelope
  import opened Templates

  const LoadFailedMessage: string := "Не удалось загрузить статьи"
  const ConnectionErrorMessage: string := "Ошибка подключения к серверу"

  /** One `div.post-modal` appended by `openPost`, shown as a block. */
  datatype Overlay = Overlay(markup: string)

  /** What one run of `loadBlogPosts` does with a response, given whether
      the page has a `#blog-posts` container. */
  datatype ListOutcome =
    | Rendered(posts: seq<ListedPost>) // the list is drawn, the banner hidden
    | NoContainer                      // nothing drawn, the banner hidden
    | Rejected                         // the envelope failed the test
    | Failed                           // an exception reached the `catch`

  /** Which path of `loadBlogPosts` (blog.js:5-24) a response takes. An
      accepted `data` that is not an array of posts makes `posts.map` throw
      inside `displayBlogPosts` once the container exists; without a
      container `displayBlogPosts` returns before touching `data`. */
  function ClassifyList(resp: Response<seq<ListedPost>>, hasContainer: bool): (o: ListOutcome)
    ensures o.Rejected? <==> resp.Parsed? && !Accepted(resp)
    ensures o.NoContainer? <==> Accepted(resp) && !hasContainer
    ensures o.Rendered? <==> Accepted(resp) && hasContainer && resp.data.Payload?
    ensures o.Rendered? ==> o.posts == resp.data.v
    ensures o.Failed? <==> resp.TransportFailure? || (Accepted(resp) && hasContainer && !resp.data.Payload?)
  {
    match resp
    case TransportFailure => Failed
    case Parsed(success, data) =>
      if !(Truthy(success) && Truthy(data)) then Rejected
      else if !hasContainer then NoContainer
      else if data.Payload? then Rendered(data.v)
      else Failed
  }

  class PageView {
    const hasLoader: bool
    const hasErrorBanner: bool
    var loaderVisible: bool
    var errorVisible: bool
    var errorText: string
    /** The `innerHTML` of `#blog-posts`; `None` when the page has none. */
    var container: Option<string>
    /** The `.post-modal` elements in document order. */
    var overlays: seq<Overlay>

    constructor (hasLoader: bool, hasErrorBanner: bool, errorText: string, container: Option<string>)
      ensures this.hasLoader == hasLoader && this.hasErrorBanner == hasErrorBanner
      ensures this.errorText == errorText && this.container == container
      ensures !loaderVisible && !errorVisible && overlays == []
    {
      this.hasLoader := hasLoader;
      this.hasErrorBanner := hasErrorBanner;
      this.errorText := errorText;
      this.container := container;
      loaderVisible := false;
      errorVisible := false;
      overlays := [];
    }

    /** `showLoading(show)` (blog.js:141-146). */
    method ShowLoading(show: bool)
      modifies this`loaderVisible
      ensures loaderVisible == if hasLoader then show else old(loaderVisible)
    {
      if hasLoader {
        loaderVisible := show;
      }
    }

    /** `showError(show, message = '')` (blog.js:148-156): the text is
        replaced only by a non-empty message, so `showError(false)` keeps
        the last one. */
    method ShowError(show: bool, message: string)
      modifies this`errorVisible, this`errorText
      ensures errorVisible == if hasErrorBanner then show else old(errorVisible)
      ensures errorText == if hasErrorBanner && message != "" then message else old(errorText)
    {
      if hasErrorBanner {
        errorVisible := show;
        if message != "" {
          errorText := message;
        }
      }
    }

    /** `displayBlogPosts(posts)` (blog.js:44-81): the empty-state message
        for no posts, otherwise one card per post in order. */
    method DisplayBlogPosts(posts: seq<ListedPost>, formatDate: string -> string)
      modifies this`container
      ensures old(container).None? ==> container.None?
      ensures old(container).Some? ==>
                container == Some(if |posts| == 0 then EmptyListMarkup else ListMarkup(posts, formatDate))
    {
      if container.None? {
        return;
      }
      if |posts| == 0 {
        container := Some(EmptyListMarkup);
        return;
      }
      container := Some(ListMarkup(posts, formatDate));
    }

    /** `loadBlogPosts()` (blog.js:5-24) once the response is in: the loader
        ends hidden on every path; the banner is hidden after a drawn list,
        shown with the rejection message or the connection message
        otherwise; the container changes only when the list is drawn. */
    method LoadBlogPosts(resp: Response<seq<ListedPost>>, formatDate: string -> string)
      modifies this`loaderVisible, this`errorVisible, this`errorText, this`container
      ensures hasLoader ==> !loaderVisible
      ensures !hasLoader ==> loaderVisible == old(loaderVisible)
      ensures var o := ClassifyList(resp, old(container).Some?);
              && (o.Rendered? ==> container == Some(if |o.posts| == 0 then EmptyListMarkup
                                                    else ListMarkup(o.posts, formatDate)))
              && (!o.Rendered? ==> container == old(container))
              && (hasErrorBanner ==> errorVisible == (o.Rejected? || o.Failed?))
              && (hasErrorBanner ==> errorText == match o
                                                  case Rejected => LoadFailedMessage
                                                  case Failed => ConnectionErrorMessage
                                                  case _ => old(errorText))
              && (!hasErrorBanner ==> errorVisible == old(errorVisible) && errorText == old(errorText))
    {
      ShowLoading(true);
      match resp {
        case TransportFailure =>
          ShowError(true, ConnectionErrorMessage);
        case Parsed(success, data) =>
          if Truthy(success) && Truthy(data) {
            if data.Payload? {
              DisplayBlogPosts(data.v, formatDate);
              ShowError(false, "");
            } else if container.None? {
              // displayBlogPosts returns before it reads `posts`
              ShowError(false, "");
            } else {
              // `posts.map` is not a function: the TypeError reaches the catch
              ShowError(true, ConnectionErrorMessage);
            }
          } else {
            ShowError(true, LoadFailedMessage);
          }
      }
      ShowLoading(false);
    }

    /** `openPost(postId)` (blog.js:84-117) once the post request has been
        answered. With no post the user is alerted and nothing is added;
        with a post exactly one overlay is appended after the existing
        ones, whether or not another is already open. A truthy `data` that
        is not a post object makes `post.content.replace` throw while the
        overlay is being built, before it is appended. */
    method OpenPost(resp: Response<FullPost>, formatDate: string -> string) returns (alerted: bool)
      modifies this`overlays
      ensures alerted <==> LoadBlogPost(resp).None?
      ensures var post := LoadBlogPost(resp);
              overlays == if post.Some? && post.value.Payload?
                          then old(overlays) + [Overlay(OverlayMarkup(post.value.v, formatDate))]
                          else old(overlays)
    {
      var post := LoadBlogPost(resp);
      if post.None? {
        return true;
      }
      if post.value.Payload? {
        overlays := overlays + [Overlay(OverlayMarkup(post.value.v, formatDate))];
      }
      return false;
    }

    /** `closePostModal()` (blog.js:120-125): `querySelector` finds the first
        overlay in document order and only that one is removed. */
    method ClosePostModal()
      modifies this`overlays
      ensures overlays == if old(overlays) == [] then [] else old(overlays)[1..]
    {
      if overlays != [] {
        overlays := overlays[1..];
      }
    }
  }

  /** Opening two posts without closing in between leaves two overlays, the
      older first; one close removes the older and keeps the newer. */
  method OverlaysStack(first: FullPost, second: FullPost, formatDate: string -> string)
    returns (open: seq<Overlay>, afterClose: seq<Overlay>)
    ensures |open| == 2 && open[0].markup == OverlayMarkup(first, formatDate)
    ensures open[1].markup == OverlayMarkup(second, formatDate)
    ensures afterClose == [Overlay(OverlayMarkup(second, formatDate))]
  {
    var page := new PageView(true, true, "", Some(""));
    var r1: Response<FullPost> := Parsed(Bool(true), Payload(first));
    var r2: Response<FullPost> := Parsed(Bool(true), Payload(second));
    assert LoadBlogPost(r1) == Some(Payload(first));
    assert LoadBlogPost(r2) == Some(Payload(second));
    var alerted := page.OpenPost(r1, formatDate);
    assert page.overlays == [Overlay(OverlayMarkup(first, formatDate))];
    alerted := page.OpenPost(r2, formatDate);
    open := page.overlays;
    page.ClosePostModal();
    afterClose := page.overlays;
  }
}
