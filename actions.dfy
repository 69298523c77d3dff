/**
 * What a finished drag does: a text drag becomes a search in the configured
 * engine, an image or link drag an open request for its URL if the URL is
 * safe, and every request goes to the background page through
 * `safeSendMessage`, which falls back to `window.open` in the page itself.
 */
module Actions {
  import opened Wrappers
  import opened Strings
  import opened UriEncoding
  import opened Security
  import opened Utils
  import opened DragContent

  const GoogleSearch: string := "https://www.google.com/search?q="
  const BingSearch: string := "https://www.bing.com/search?q="
  const BaiduSearch: string := "https://www.baidu.com/s?wd="
  const DuckDuckGoSearch: string := "https://duckduckgo.com/?q="

  /** The URL template of `getSearchUrl` before the encoded text; an unknown engine is Google. */
  function EngineBase(engine: string): (r: string)
    ensures engine == "bing" ==> r == BingSearch
    ensures engine == "baidu" ==> r == BaiduSearch
    ensures engine == "duckduckgo" ==> r == DuckDuckGoSearch
    ensures engine != "bing" && engine != "baidu" && engine != "duckduckgo" ==> r == GoogleSearch
  {
    match engine
    case "bing" => BingSearch
    case "baidu" => BaiduSearch
    case "duckduckgo" => DuckDuckGoSearch
    case _ => GoogleSearch
  }

  /** `getSearchUrl(text)`: the template followed by `encodeURIComponent(text)`. */
  function SearchUrl(engine: string, text: string): (r: string)
    ensures EngineBase(engine) <= r
    ensures |r| >= |EngineBase(engine)| + |text|
    ensures IsEscapedText(r[|EngineBase(engine)|..])
  {
    EncodeAlphabet(text);
    var r := EngineBase(engine) + EncodeComponent(text);
    assert r[|EngineBase(engine)|..] == EncodeComponent(text);
    r
  }

  /**
   * The text is carried in one query value that needs no further escaping
   * (no `&`, `#`, `=` or space), and for ASCII text it can be read back.
   */
  lemma SearchUrlRecoversText(engine: string, text: string)
    requires IsAscii(text)
    ensures var r := SearchUrl(engine, text);
            DecodeAscii(r[|EngineBase(engine)|..]) == text
  {
    var base := EngineBase(engine);
    assert SearchUrl(engine, text)[|base|..] == EncodeComponent(text);
    DecodeEncodeAscii(text);
  }

  /** Different ASCII texts give different search URLs in the same engine. */
  lemma SearchUrlInjective(engine: string, a: string, b: string)
    requires IsAscii(a) && IsAscii(b) && SearchUrl(engine, a) == SearchUrl(engine, b)
    ensures a == b
  {
    SearchUrlRecoversText(engine, a);
    SearchUrlRecoversText(engine, b);
  }

  /**
   * For text of unreserved characters and spaces, the search URL is the
   * engine's template and the text with its spaces escaped: Baidu and
   * "hello world" give `https://www.baidu.com/s?wd=hello%20world`.
   */
  lemma SearchUrlOfSpacedText(engine: string, text: string)
    requires forall k :: 0 <= k < |text| ==> IsUnreserved(text[k]) || text[k] == ' '
    ensures SearchUrl(engine, text) == EngineBase(engine) + SpacesEscaped(text)
  {
    EncodeSpacedText(text);
  }

  /**
   * `openUrl(url)`: the URL to request, when it is non-empty and
   * `isUrlSafe` accepts it. `parse` stands for `new URL`: the protocol and
   * hostname it reports, or `None` when it throws.
   */
  function OpenRequest(url: string, parse: string -> Option<UrlParts>): (r: Option<string>)
    ensures r.Some? <==> url != [] && IsUrlSafe(parse(url))
    ensures r.Some? ==> r.value == url
  {
    if url != [] && IsUrlSafe(parse(url)) then Some(url) else None
  }

  /**
   * `processDragAction`: the URL of the tab the drag asks for, if any. A text
   * drag searches its whole text without any safety check; an image or a link
   * goes through `openUrl`; blank text, source or href asks for nothing.
   */
  function DragRequest(content: Option<Content>, engine: string, parse: string -> Option<UrlParts>): (r: Option<string>)
    ensures content.None? ==> r.None?
    ensures content.Some? && content.value.Text? ==>
              (r.Some? <==> !IsBlank(content.value.fullText))
              && (r.Some? ==> r.value == SearchUrl(engine, content.value.fullText))
    ensures content.Some? && content.value.Image? ==>
              (r.Some? <==> !IsBlank(content.value.src) && IsUrlSafe(parse(content.value.src)))
              && (r.Some? ==> r.value == content.value.src)
    ensures content.Some? && content.value.Link? ==>
              (r.Some? <==> !IsBlank(content.value.href) && IsUrlSafe(parse(content.value.href)))
              && (r.Some? ==> r.value == content.value.href)
  {
    match content
    case None => None
    case Some(Text(_, fullText)) =>
      if IsBlank(fullText) then None else Some(SearchUrl(engine, fullText))
    case Some(Image(src, _)) =>
      if IsBlank(src) then None else OpenRequest(src, parse)
    case Some(Link(href, _)) =>
      if IsBlank(href) then None else OpenRequest(href, parse)
  }

  /** Only a safe URL is ever requested for an image or a link. */
  lemma OpenedUrlsAreSafe(content: Option<Content>, engine: string, parse: string -> Option<UrlParts>)
    requires content.Some? && !content.value.Text? && DragRequest(content, engine, parse).Some?
    ensures var url := DragRequest(content, engine, parse).value;
            IsUrlSafe(parse(url)) && Lower(parse(url).value.protocol) in SafeProtocols
  {
  }

  /** The background page's answer, `{success, error}`; `None` when `sendMessage` resolves to nothing. */
  datatype Reply = Reply(success: bool, error: string)

  /** How `safeSendMessage` ended: sent, by the background page or by `window.open`, or failed with a message. */
  datatype SendResult = Sent(viaFallback: bool) | SendFailed(error: string)

  /** The result and the number of `window.open` calls made on the way. */
  datatype SendReport = SendReport(result: SendResult, windowOpens: nat)

  const NoFallbackMessage: string := "No fallback available for this action"
  /** "未知错误", unknown error. */
  const UnknownErrorMessage: string := "\U{672A}\U{77E5}\U{9519}\U{8BEF}"
  /** What reading `success` of an undefined reply throws. */
  const NoReplyMessage: string := "Cannot read properties of undefined (reading 'success')"

  /** The background page itself answered with success. */
  predicate DirectSuccess(contextValid: bool, send: Attempt<Option<Reply>>) {
    contextValid && send.Resolves? && send.value.Some? && send.value.value.success
  }

  /** The local fallback: `window.open(url)`, or a failure when the message has no URL. */
  function Fallback(url: string, openError: Option<string>): (r: Attempt<Option<Reply>>)
    ensures url == [] ==> r == Rejects(NoFallbackMessage)
    ensures url != [] ==> (r.Resolves? <==> openError.None?)
    ensures r.Resolves? ==> r.value == Some(Reply(true, []))
  {
    if url == [] then Rejects(NoFallbackMessage)
    else match openError
      case None => Resolves(Some(Reply(true, [])))
      case Some(m) => Rejects(m)
  }

  /** The message of the error `safeSendMessage` catches after an unsuccessful call. */
  function FailureMessage(outcome: Attempt<Option<Reply>>): string {
    match outcome
    case Rejects(m) => m
    case Resolves(None) => NoReplyMessage
    case Resolves(Some(reply)) => if reply.error == [] then UnknownErrorMessage else reply.error
  }

  /**
   * `safeSendMessage({action: 'openTab', url})`, decided from the outcomes of
   * the calls it makes: whether the extension context is valid, how
   * `sendMessage` settles, and whether `window.open` throws (the same way each
   * time it is called).
   */
  function SafeSendMessage(contextValid: bool, send: Attempt<Option<Reply>>, url: string,
                           openError: Option<string>): (r: SendReport)
    ensures r.windowOpens <= 2
    ensures r.result.Sent? <==> DirectSuccess(contextValid, send) || (url != [] && openError.None?)
    ensures r.result.Sent? ==> (r.result.viaFallback <==> !DirectSuccess(contextValid, send))
    ensures r.windowOpens == 0 <==> url == [] || DirectSuccess(contextValid, send)
    ensures r.windowOpens == 2 <==>
              url != [] && openError.Some?
              && (!contextValid || (send.Rejects? && IsContextError(send.message)))
  {
    var fb := Fallback(url, openError);
    var call := SafeExtensionCall(contextValid, send, Some(fb));
    var opens := if call.fallbackCalled && url != [] then 1 else 0;
    if call.outcome.Resolves? && call.outcome.value.Some? && call.outcome.value.value.success then
      SendReport(Sent(call.fallbackCalled), opens)
    else if url != [] && openError.None? then
      SendReport(Sent(true), opens + 1)
    else
      SendReport(SendFailed(FailureMessage(call.outcome)), opens + (if url != [] then 1 else 0))
  }
}
