/**
 * What a drag carries. At mouse-down the content script decides, from the
 * element under the pointer and the current selection, whether the gesture
 * drags text, an image or a link, and what the preview and tooltip say.
 * The DOM is reduced to the attributes these decisions read.
 */
module DragContent {
  import opened Wrappers
  import opened Strings

  /** Client coordinates of a mouse event (integers; the browser's are doubles). */
  datatype Point = Point(x: int, y: int)

  /** One client rectangle of a selection range. */
  datatype Rect = Rect(left: int, top: int, right: int, bottom: int)

  /**
   * `window.getSelection()` as the script reads it: its text, and the client
   * rectangles of its first range (`None` when the range count is 0).
   */
  datatype Selection = Selection(text: string, firstRange: Option<seq<Rect>>)

  /** An `<a>` element: its `href` property and its `textContent`. */
  datatype Anchor = Anchor(href: string, textContent: string)

  /**
   * The element a drag starts on: its identity, its `tagName`, the attributes
   * the classification reads, and what `closest('a')` finds from it. That
   * search starts at the element itself, so for an SVG `<a>` (whose `tagName`
   * is the lower-case "a") `enclosingLink` is the element's own link; an HTML
   * `<a>` has the `tagName` "A" and `LinkOf` takes it before the search.
   */
  datatype Element = Element(
    id: nat,
    tagName: string,
    src: string,
    alt: string,
    href: string,
    textContent: string,
    enclosingLink: Option<Anchor>)

  /** The `dragContent` record. */
  datatype Content =
    | Text(text: string, fullText: string)
    | Image(src: string, alt: string)
    | Link(href: string, text: string)

  /** The alt text an image without one is given ("图片", "picture"). */
  const DefaultAlt: string := "\U{56FE}\U{7247}"

  /** Tooltip texts: "搜索: " (search), "在新标签页打开图片" / "在新标签页打开链接" (open image / link in a new tab). */
  const SearchPrefix: string := "\U{641C}\U{7D22}: "
  const OpenImageTip: string := "\U{5728}\U{65B0}\U{6807}\U{7B7E}\U{9875}\U{6253}\U{5F00}\U{56FE}\U{7247}"
  const OpenLinkTip: string := "\U{5728}\U{65B0}\U{6807}\U{7B7E}\U{9875}\U{6253}\U{5F00}\U{94FE}\U{63A5}"

  const PreviewLength: nat := 50
  const TooltipLength: nat := 20

  /** `element.tagName === 'A' ? element : element.closest('a')`. */
  function LinkOf(e: Element): (r: Option<Anchor>)
    ensures e.tagName == "A" ==> r == Some(Anchor(e.href, e.textContent))
    ensures e.tagName != "A" ==> r == e.enclosingLink
  {
    if e.tagName == "A" then Some(Anchor(e.href, e.textContent)) else e.enclosingLink
  }

  /** The first `n` characters, followed by "..." when anything was cut off. */
  function Shorten(s: string, n: nat): (r: string)
    ensures |r| <= n + 3
    ensures |s| <= n ==> r == s
    ensures |s| > n ==> |r| == n + 3 && r[..n] == s[..n] && r[n..] == "..."
  {
    if |s| > n then s[..n] + "..." else s
  }

  /** The pointer lies in the rectangle, borders included. */
  predicate InRect(r: Rect, p: Point) {
    r.left <= p.x <= r.right && r.top <= p.y <= r.bottom
  }

  /** The reference meaning of `isMouseInSelectedText`. */
  predicate MouseInSelection(sel: Selection, p: Point) {
    !IsBlank(sel.text) && sel.firstRange.Some?
    && exists i :: 0 <= i < |sel.firstRange.value| && InRect(sel.firstRange.value[i], p)
  }

  /** `isMouseInSelectedText`: the selection's text is not blank, and a scan of its first range finds the pointer. */
  method IsMouseInSelectedText(sel: Selection, p: Point) returns (inside: bool)
    ensures inside <==> MouseInSelection(sel, p)
  {
    if IsBlank(sel.text) || sel.firstRange.None? {
      return false;
    }
    inside := AnyRectContains(sel.firstRange.value, p);
  }

  /** The loop over the range's client rectangles: some rectangle contains the pointer. */
  method AnyRectContains(rects: seq<Rect>, p: Point) returns (found: bool)
    ensures found <==> exists i :: 0 <= i < |rects| && InRect(rects[i], p)
  {
    if |rects| == 0 {
      return false;
    }
    var i := 0;
    while i < |rects|
      invariant 0 <= i <= |rects|
      invariant forall j :: 0 <= j < i ==> !InRect(rects[j], p)
    {
      if InRect(rects[i], p) {
        return true;
      }
      i := i + 1;
    }
    return false;
  }

  /** The text a link drag shows: its trimmed text shortened, or the href when there is none. */
  function LinkDisplay(a: Anchor): (r: string)
    ensures Trim(a.textContent) == [] ==> r == a.href
    ensures Trim(a.textContent) != [] ==> r == Shorten(Trim(a.textContent), PreviewLength)
  {
    var linkText := Trim(a.textContent);
    if |linkText| > PreviewLength then Shorten(linkText, PreviewLength)
    else if linkText == [] then a.href
    else linkText
  }

  /** The drag would carry the selected text. */
  predicate TextApplies(e: Option<Element>, selectedText: string, inSelection: bool) {
    e.Some? && !IsBlank(selectedText) && inSelection
  }

  /** The start element is an image with a source. */
  predicate ImageApplies(e: Option<Element>) {
    e.Some? && e.value.tagName == "IMG" && !IsBlank(e.value.src)
  }

  /** The start element is, or lies inside, a link with a target. */
  predicate LinkApplies(e: Option<Element>) {
    e.Some? && LinkOf(e.value).Some? && !IsBlank(LinkOf(e.value).value.href)
  }

  /**
   * `prepareDragContent`: selected text under the pointer wins over an image,
   * an image wins over a link, and otherwise nothing is dragged.
   * `selectedText` is the trimmed selection read at mouse-down and
   * `inSelection` the answer of `isMouseInSelectedText` for the down point.
   */
  function PrepareDragContent(e: Option<Element>, selectedText: string, inSelection: bool): (r: Option<Content>)
    ensures e.None? ==> r.None?
    ensures (r.Some? && r.value.Text?) <==> TextApplies(e, selectedText, inSelection)
    ensures (r.Some? && r.value.Image?) <==> !TextApplies(e, selectedText, inSelection) && ImageApplies(e)
    ensures (r.Some? && r.value.Link?) <==>
              !TextApplies(e, selectedText, inSelection) && !ImageApplies(e) && LinkApplies(e)
    ensures r.Some? && r.value.Text? ==>
              r.value.fullText == Trim(selectedText) && r.value.text == Shorten(Trim(selectedText), PreviewLength)
    ensures r.Some? && r.value.Image? ==>
              r.value.src == e.value.src && r.value.alt == (if e.value.alt == [] then DefaultAlt else e.value.alt)
    ensures r.Some? && r.value.Link? ==>
              r.value.href == LinkOf(e.value).value.href && r.value.text == LinkDisplay(LinkOf(e.value).value)
  {
    match e
    case None => None
    case Some(el) =>
      var fullText := Trim(selectedText);
      if fullText != [] && inSelection then
        Some(Text(Shorten(fullText, PreviewLength), fullText))
      else if el.tagName == "IMG" && !IsBlank(el.src) then
        Some(Image(el.src, if el.alt == [] then DefaultAlt else el.alt))
      else
        match LinkOf(el)
        case Some(a) =>
          if !IsBlank(a.href) then Some(Link(a.href, LinkDisplay(a))) else None
        case None => None
  }

  /** Nothing is dragged exactly when no rule applies. */
  lemma NoContentIffNoRule(e: Option<Element>, selectedText: string, inSelection: bool)
    ensures PrepareDragContent(e, selectedText, inSelection).None? <==>
              !TextApplies(e, selectedText, inSelection) && !ImageApplies(e) && !LinkApplies(e)
  {
    var r := PrepareDragContent(e, selectedText, inSelection);
    if r.Some? {
      match r.value
      case Text(_, _) =>
      case Image(_, _) =>
      case Link(_, _) =>
    }
  }

  /**
   * The text of a drag whose pointer is inside the selection is the whole
   * trimmed selection; only its preview is shortened, and its preview begins
   * with the selection's first 50 characters.
   */
  lemma TextPreviewIsPrefix(e: Element, selectedText: string)
    requires !IsBlank(selectedText)
    ensures var r := PrepareDragContent(Some(e), selectedText, true);
            r.Some? && r.value.Text? && r.value.fullText == Trim(selectedText)
            && (|r.value.fullText| <= PreviewLength ==> r.value.text == r.value.fullText)
            && (|r.value.fullText| > PreviewLength ==>
                  r.value.text[..PreviewLength] == r.value.fullText[..PreviewLength])
  {
  }

  /**
   * `showTooltip`'s choice of text: the search prompt with the first 20
   * characters of the trimmed selection, else a prompt for an image or a link
   * start element, else nothing (""). It looks at `selectedText` alone, not
   * at whether the pointer was inside the selection.
   */
  function TooltipText(selectedText: string, e: Option<Element>): (r: string)
    ensures selectedText != [] ==> r == SearchPrefix + Shorten(selectedText, TooltipLength)
    ensures selectedText == [] && e.Some? && e.value.tagName == "IMG" ==> r == OpenImageTip
    ensures selectedText == [] && e.Some? && e.value.tagName != "IMG" && LinkOf(e.value).Some? ==> r == OpenLinkTip
    ensures r == [] <==> selectedText == [] && (e.None? || (e.value.tagName != "IMG" && LinkOf(e.value).None?))
  {
    if selectedText != [] then
      SearchPrefix + (selectedText[..if |selectedText| < TooltipLength then |selectedText| else TooltipLength])
      + (if |selectedText| > TooltipLength then "..." else "")
    else if e.Some? && e.value.tagName == "IMG" then OpenImageTip
    else if e.Some? && LinkOf(e.value).Some? then OpenLinkTip
    else ""
  }

  /**
   * The tooltip and the drag can disagree: with text selected but the pointer
   * on a link outside the selection, the tooltip offers a search while the
   * drag carries the link.
   */
  lemma TooltipCanDisagree(e: Element, selectedText: string)
    requires e.tagName == "A" && !IsBlank(e.href) && !IsBlank(selectedText)
    ensures var c := PrepareDragContent(Some(e), selectedText, false);
            c.Some? && c.value.Link?
            && TooltipText(selectedText, Some(e)) == SearchPrefix + Shorten(selectedText, TooltipLength)
  {
    assert selectedText != [];
  }
}
