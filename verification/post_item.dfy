/**
 * The post card, with the markup stripped away: from a post record to the
 * values the card shows. These are the resolved link, the two link wrappers
 * (around the image and around the title), the card's class string, the
 * image source and the optional footer. The link generator and the date
 * formatter are collaborators outside this component, so they are passed in
 * as functions.
 */
module PostItem {
  import opened Wrappers
  import opened JsStrings

  /** The `post` prop; `None` is an omitted optional property. */
  datatype Post = Post(
    id: string,
    title: string,
    description: string,
    imgurl: string,
    createdAt: Option<string>,
    link: Option<string>,
    author: Option<string>,
    postFooter: Option<bool>,
    disableLinks: Option<bool>,
    disableHoverEffect: Option<bool>)

  /** What `LinkWrapper` renders: a plain `<div>` or a `<Link>`. */
  datatype Wrapper =
    | Container(className: string)
    | Anchor(href: string, title: string, className: string)

  datatype Footer = Footer(date: string, author: string)

  datatype CardView = CardView(
    cardClass: string,
    imageWrapper: Wrapper,
    imageSrc: string,
    imageAlt: string,
    titleWrapper: Wrapper,
    titleText: string,
    description: string,
    footer: Option<Footer>)

  const DefaultImage := "/static/Image/logo.jpg"
  const DatePlaceholder := "2 hours ago"
  const UnknownAuthor := "unknown"
  const BaseClasses := ["group", "card", "h-full", "rounded-xl", "bg-base-300", "shadow-xl"]
  const HoverClasses := ["ease-in-out", "duration-500", "transition-transform", "md:hover:scale-105"]
  const ImageWrapperClass := "block"
  const TitleWrapperClass := "card-title line-clamp-2"
  const TitleLinkClass := "group-hover:text-indigo-700"

  /** `post.link || postLinkGenerator(post._id, post.title)`. */
  function ResolveLink(post: Post, generate: (string, string) -> string): (link: string)
    ensures post.link.Some? && post.link.value != "" ==> link == post.link.value
    ensures post.link.None? || post.link.value == "" ==> link == generate(post.id, post.title)
  {
    Or(post.link, generate(post.id, post.title))
  }

  /**
   * `LinkWrapper`. Both class props default to the empty string. With links
   * disabled the result is a plain container with `className` alone; otherwise
   * it is a link to `postLink`, titled with the post title, whose class is the
   * trimmed "className linkClassName".
   */
  function LinkWrapper(post: Post, postLink: string, className: Option<string>, linkClassName: Option<string>): (w: Wrapper)
    ensures IsTrue(post.disableLinks) <==> w.Container?
    ensures w.Container? ==> w.className == className.GetOr("")
    ensures w.Anchor? ==> w.href == postLink && w.title == post.title
    ensures w.Anchor? ==> w.className == Trim(className.GetOr("") + " " + linkClassName.GetOr(""))
  {
    var cls := className.GetOr("");
    if IsTrue(post.disableLinks) then Container(cls)
    else Anchor(postLink, post.title, Trim(cls + " " + linkClassName.GetOr("")))
  }

  /** A disabled wrapper depends on neither the link nor the link-only class. */
  lemma DisabledWrapperIgnoresLink(post: Post, link1: string, link2: string,
                                   className: Option<string>, extra1: Option<string>, extra2: Option<string>)
    requires IsTrue(post.disableLinks)
    ensures LinkWrapper(post, link1, className, extra1) == LinkWrapper(post, link2, className, extra2)
    ensures LinkWrapper(post, link1, className, extra1).className == className.GetOr("")
  {
  }

  /**
   * For class names that carry no outer white space, the trimmed link class is
   * "className linkClassName", or just the one that is not empty when the
   * other is.
   */
  lemma AnchorClassJoins(post: Post, postLink: string, cls: string, linkCls: string)
    requires !IsTrue(post.disableLinks)
    requires NoOuterWhiteSpace(cls) && NoOuterWhiteSpace(linkCls)
    ensures var w := LinkWrapper(post, postLink, Some(cls), Some(linkCls));
            w.className == if linkCls == "" then cls else if cls == "" then linkCls else cls + " " + linkCls
  {
    if linkCls == "" {
      TrimPadded("", cls, " ");
      assert "" + cls + " " == cls + " " + linkCls;
    } else if cls == "" {
      TrimPadded(" ", linkCls, "");
      assert " " + linkCls + "" == cls + " " + linkCls;
    } else {
      var s := cls + " " + linkCls;
      assert NoOuterWhiteSpace(s) by {
        assert s[0] == cls[0] && s[|s| - 1] == linkCls[|linkCls| - 1];
      }
      TrimPadded("", s, "");
      assert "" + s + "" == s;
    }
  }

  /** The array that `cardClasses` joins. */
  function CardClassList(post: Post): seq<string> {
    BaseClasses + (if IsTrue(post.disableHoverEffect) then [] else HoverClasses)
  }

  lemma {:induction false} JoinAppend(a: seq<string>, b: seq<string>, sep: string)
    requires |a| > 0 && |b| > 0
    ensures Join(a + b, sep) == Join(a, sep) + sep + Join(b, sep)
  {
    if |a| > 1 {
      assert (a + b)[1..] == a[1..] + b;
      JoinAppend(a[1..], b, sep);
    } else {
      assert (a + b)[1..] == b;
    }
  }

  /**
   * `cardClasses`: the class list joined with single spaces. It always starts
   * with the base classes; the hover classes follow, after one space, unless
   * the hover effect is disabled.
   */
  function CardClasses(post: Post): (cls: string)
    ensures IsTrue(post.disableHoverEffect) ==> cls == Join(BaseClasses, " ")
    ensures !IsTrue(post.disableHoverEffect) ==> cls == Join(BaseClasses, " ") + " " + Join(HoverClasses, " ")
    ensures |Join(BaseClasses, " ")| <= |cls| && cls[..|Join(BaseClasses, " ")|] == Join(BaseClasses, " ")
  {
    var cls := Join(CardClassList(post), " ");
    if IsTrue(post.disableHoverEffect) then
      assert CardClassList(post) == BaseClasses;
      cls
    else
      JoinAppend(BaseClasses, HoverClasses, " ");
      cls
  }

  lemma ClassNamesHaveNoSpace()
    ensures forall i :: 0 <= i < |BaseClasses| ==> ' ' !in BaseClasses[i]
    ensures forall i :: 0 <= i < |HoverClasses| ==> ' ' !in HoverClasses[i]
  {
  }

  /**
   * The classes of the card, read back from its class string, are the six
   * base classes followed by the four hover classes exactly when the hover
   * effect is not disabled.
   */
  lemma CardClassTokens(post: Post)
    ensures Split(CardClasses(post), ' ') == CardClassList(post)
    ensures "md:hover:scale-105" in Split(CardClasses(post), ' ') <==> !IsTrue(post.disableHoverEffect)
  {
    var list := CardClassList(post);
    ClassNamesHaveNoSpace();
    forall i | 0 <= i < |list| ensures ' ' !in list[i] {
      if i < |BaseClasses| {
        assert list[i] == BaseClasses[i];
      } else {
        assert list[i] == HoverClasses[i - |BaseClasses|];
      }
    }
    SplitJoin(list, ' ');
    assert "md:hover:scale-105" !in BaseClasses;
    if !IsTrue(post.disableHoverEffect) {
      assert list[9] == "md:hover:scale-105";
    }
  }

  /** `post.imgurl || '/static/Image/logo.jpg'`. */
  function ImageSource(post: Post): (src: string)
    ensures post.imgurl != "" ==> src == post.imgurl
    ensures post.imgurl == "" ==> src == DefaultImage
  {
    Or(Some(post.imgurl), DefaultImage)
  }

  /**
   * The footer, present only when `postFooter` is true: the formatted date of
   * a non-empty `createdAt`, else the placeholder; the author, else "unknown".
   */
  function FooterOf(post: Post, formatDate: string -> string): (f: Option<Footer>)
    ensures f.Some? <==> IsTrue(post.postFooter)
    ensures f.Some? && Truthy(post.createdAt) ==> f.value.date == formatDate(post.createdAt.value)
    ensures f.Some? && !Truthy(post.createdAt) ==> f.value.date == DatePlaceholder
    ensures f.Some? && Truthy(post.author) ==> f.value.author == post.author.value
    ensures f.Some? && !Truthy(post.author) ==> f.value.author == UnknownAuthor
  {
    if !IsTrue(post.postFooter) then None
    else
      var date := if Truthy(post.createdAt) then formatDate(post.createdAt.value) else DatePlaceholder;
      Some(Footer(date, Or(post.author, UnknownAuthor)))
  }

  /** The wrapper around the image: class "block", no link-only class. */
  function ImageWrapper(post: Post, postLink: string): (w: Wrapper)
    ensures IsTrue(post.disableLinks) ==> w == Container(ImageWrapperClass)
    ensures !IsTrue(post.disableLinks) ==> w == Anchor(postLink, post.title, ImageWrapperClass)
  {
    var w := LinkWrapper(post, postLink, Some(ImageWrapperClass), None);
    if IsTrue(post.disableLinks) then w
    else
      AnchorClassJoins(post, postLink, ImageWrapperClass, "");
      w
  }

  lemma TitleClassesTrimmed()
    ensures Trim(TitleWrapperClass + " " + TitleLinkClass) == TitleWrapperClass + " " + TitleLinkClass
  {
    var s := TitleWrapperClass + " " + TitleLinkClass;
    assert s[0] == 'c';
    assert s[|s| - 1] == '0';
    TrimPadded("", s, "");
    assert "" + s + "" == s;
  }

  /** The wrapper around the title: the title classes, plus the hover colour only on a link. */
  function TitleWrapper(post: Post, postLink: string): (w: Wrapper)
    ensures IsTrue(post.disableLinks) ==> w == Container(TitleWrapperClass)
    ensures !IsTrue(post.disableLinks) ==>
              w == Anchor(postLink, post.title, TitleWrapperClass + " " + TitleLinkClass)
  {
    var w := LinkWrapper(post, postLink, Some(TitleWrapperClass), Some(TitleLinkClass));
    if IsTrue(post.disableLinks) then w
    else
      TitleClassesTrimmed();
      w
  }

  /** Everything the card shows for `post`. */
  function Derive(post: Post, generate: (string, string) -> string, formatDate: string -> string): (view: CardView)
    ensures view.imageAlt == post.title && view.titleText == post.title && view.description == post.description
    ensures view.cardClass == CardClasses(post) && view.imageSrc == ImageSource(post)
    ensures view.footer == FooterOf(post, formatDate)
    ensures view.footer.Some? <==> IsTrue(post.postFooter)
    ensures IsTrue(post.disableLinks) ==>
              view.imageWrapper == Container(ImageWrapperClass) && view.titleWrapper == Container(TitleWrapperClass)
    ensures !IsTrue(post.disableLinks) ==>
              var link := ResolveLink(post, generate);
              view.imageWrapper == Anchor(link, post.title, ImageWrapperClass)
              && view.titleWrapper == Anchor(link, post.title, TitleWrapperClass + " " + TitleLinkClass)
  {
    var link := ResolveLink(post, generate);
    CardView(
      CardClasses(post),
      ImageWrapper(post, link),
      ImageSource(post),
      post.title,
      TitleWrapper(post, link),
      post.title,
      post.description,
      FooterOf(post, formatDate))
  }
}
