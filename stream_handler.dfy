// The `/stream/:name?` request handler of ncc-8-0.js (lines 244-1524) as
// the sequence of outward effects it produces. What the browser and the
// network do (whether a page opens, the stream starts, the navigation
// succeeds) is decided by an Environment value.
module StreamHandler {
  import opened Options
  import opened Text
  import opened ChannelQuery
  import opened Geolocation
  import opened StreamSettings
  import opened Automation

  /** The query parameters `url` and `waitForVideo` and the route parameter `name`. */
  datatype Request = Request(url: Option<string>, name: Option<string>, waitForVideo: Option<string>)

  /** `window.outerWidth - window.innerWidth` and the same for the height, read from the page. */
  datatype Chrome = Chrome(outerWidth: int, innerWidth: int, outerHeight: int, innerHeight: int)

  /** Which awaited calls succeed, and what the page reports. */
  datatype Environment = Environment(
    platform: string,
    pageOpens: bool,      // getCurrentBrowser, newPage and setGeolocation
    streamStarts: bool,   // getStream
    navigates: bool,      // page.goto
    videoPlays: bool,     // the waits for a playing <video> and its restyling
    windowControl: bool,  // reading the chrome size and the CDP window calls
    chrome: Chrome,
    currentUrl: string,   // page.url() when a script reads it
    pagesOpen: bool)      // browser.pages().length > 0 when a script runs

  /**
   * What the scripts read: the `ch=` value extracted from `url` at the
   * top of the handler (ncc-8-0.js:247-249), and the page as the
   * environment reports it.
   */
  function PageFor(urlParam: string, env: Environment): PageState
  {
    PageState(ChannelOf(urlParam), env.currentUrl, env.pagesOpen)
  }

  datatype Effect =
    | Respond(status: nat)
    | OpenPage(geo: Geo)
    | ScheduleCbs(steps: seq<Step>)
    | StartStream(encoder: Encoder)
    | ClosePage
    | Navigate(url: string)
    | PrepareVideo
    | ResizeWindow(bounds: Bounds)
    | Minimize
    | RunScript(site: Site, steps: seq<Step>)

  /**
   * The navigation `try` block (ncc-8-0.js:522-571): go to the target,
   * wait for the video when asked to, resize the window and, when asked
   * to, minimise it. The first call that throws ends the block; an unknown
   * alias leaves the target undefined, so `goto` throws at once.
   */
  function NavigationEffects(target: Option<string>, wait: bool, minimize: bool, env: Environment): seq<Effect>
  {
    match target
    case None => []
    case Some(u) =>
      if !env.navigates then [Navigate(u)]
      else if wait && !env.videoPlays then [Navigate(u)]
      else
        var c := env.chrome;
        [Navigate(u)] + (if wait then [PrepareVideo] else []) +
        if !env.windowControl then []
        else
          [ResizeWindow(WindowBounds(c.outerWidth, c.innerWidth, c.outerHeight, c.innerHeight))] +
          (if minimize then [Minimize] else [])
  }

  /** The script the dispatch chain selects, which runs whether or not the navigation succeeded. */
  function ScriptEffects(urlParam: string, page: PageState): seq<Effect>
  {
    var site := SelectSite(urlParam);
    if site.Some? then [RunScript(site.value, ScriptFor(site.value, page))] else []
  }

  /**
   * The CBS block (ncc-8-0.js:437-483) is scheduled whenever the URL names
   * a CBS stream page, before and apart from the dispatch chain.
   */
  function CbsEffects(urlParam: string, page: PageState): seq<Effect>
  {
    if Contains(urlParam, CbsStreamPage) then [ScheduleCbs(CbsScript(urlParam, page.pagesOpen))] else []
  }

  /**
   * The handler. A missing `url` makes `urlParam.match` throw before
   * anything happens, and the thrown error is answered with 500 by the
   * Express error handler that express-async-errors routes it to. A page that cannot be opened answers 500; a stream
   * that cannot be started answers 500 and closes the page. Otherwise the
   * stream starts with the settings chosen from `url` and the navigation
   * block and the selected script follow.
   */
  function Handle(req: Request, env: Environment): seq<Effect>
  {
    match req.url
    case None => [Respond(500)]
    case Some(urlParam) => Decided(urlParam, ResolveGeolocation(urlParam), req, env)
  }

  /** The handler once the geolocation decision for `urlParam` is known. */
  function Decided(urlParam: string, decision: GeoDecision, req: Request, env: Environment): seq<Effect>
  {
    match decision
    case ChannelNotFound(_) => [Respond(404)]
    case Located(geo) =>
      if !env.pageOpens then [Respond(500)]
      else [OpenPage(geo)] + AfterOpen(urlParam, req, env)
  }

  /** What follows the opening of the page: the CBS block, then the stream or its failure. */
  function AfterOpen(urlParam: string, req: Request, env: Environment): seq<Effect>
  {
    CbsEffects(urlParam, PageFor(urlParam, env)) +
    if !env.streamStarts then [Respond(500), ClosePage] else Started(urlParam, req, env)
  }

  /** What follows a stream that started: the navigation block and the selected script. */
  function Started(urlParam: string, req: Request, env: Environment): seq<Effect>
  {
    var wait := WaitForVideo(req.waitForVideo, req.name);
    var minimize := MinimizeWindow(env.platform, wait);
    [StartStream(EncoderFor(urlParam))] +
    NavigationEffects(TargetUrl(urlParam, req.name), wait, minimize, env) +
    ScriptEffects(urlParam, PageFor(urlParam, env))
  }

  /** What follows the opening of the page, as its parts. */
  lemma AfterOpenShape(urlParam: string, req: Request, env: Environment)
    ensures var wait := WaitForVideo(req.waitForVideo, req.name);
            var nav := NavigationEffects(TargetUrl(urlParam, req.name), wait, MinimizeWindow(env.platform, wait), env);
            AfterOpen(urlParam, req, env) ==
              CbsEffects(urlParam, PageFor(urlParam, env)) +
              (if env.streamStarts then [StartStream(EncoderFor(urlParam))] + nav + ScriptEffects(urlParam, PageFor(urlParam, env))
               else [Respond(500), ClosePage])
  {
  }

  // ---------------------------------------------------------------------
  // Properties of the trace

  /** No OpenPage, Respond or ClosePage in `s`. */
  predicate Quiet(s: seq<Effect>)
  {
    forall e :: e in s ==> !e.OpenPage? && !e.Respond? && !e.ClosePage?
  }

  /** The navigation block, the script and the CBS block hold no OpenPage, Respond or ClosePage. */
  lemma PiecesAreQuiet(urlParam: string, target: Option<string>, wait: bool, minimize: bool, env: Environment)
    ensures Quiet(NavigationEffects(target, wait, minimize, env))
    ensures Quiet(ScriptEffects(urlParam, PageFor(urlParam, env)))
    ensures Quiet(CbsEffects(urlParam, PageFor(urlParam, env)))
  {
  }

  /** A started stream sends no response and neither opens nor closes a page. */
  lemma StartedIsQuiet(urlParam: string, req: Request, env: Environment)
    ensures Quiet(Started(urlParam, req, env))
  {
    var wait := WaitForVideo(req.waitForVideo, req.name);
    PiecesAreQuiet(urlParam, TargetUrl(urlParam, req.name), wait, MinimizeWindow(env.platform, wait), env);
  }

  /** Nothing after the opening of the page opens another one. */
  lemma AfterOpenOpensNothing(urlParam: string, req: Request, env: Environment)
    ensures forall e :: e in AfterOpen(urlParam, req, env) ==> !e.OpenPage?
  {
    StartedIsQuiet(urlParam, req, env);
    PiecesAreQuiet(urlParam, None, false, false, env);
  }

  /** The page is opened first, and only once, whatever the decision. */
  lemma DecidedOpensFirst(urlParam: string, d: GeoDecision, req: Request, env: Environment)
    ensures var t := Decided(urlParam, d, req, env);
            (forall j :: 0 <= j < |t| && !t[j].Respond? ==> t[0].OpenPage?) &&
            (forall j :: 0 < j < |t| ==> !t[j].OpenPage?)
  {
    if d.Located? && env.pageOpens {
      AfterOpenOpensNothing(urlParam, req, env);
      var a := AfterOpen(urlParam, req, env);
      assert Decided(urlParam, d, req, env) == [OpenPage(d.geo)] + a;
    }
  }

  /**
   * The page, with its geolocation, is opened first, before any
   * navigation, stream or script; it is opened at most once.
   */
  lemma GeolocationFirst(req: Request, env: Environment)
    ensures var t := Handle(req, env);
            forall j :: 0 <= j < |t| && !t[j].Respond? ==> t[0].OpenPage?
    ensures var t := Handle(req, env);
            forall j :: 0 < j < |t| ==> !t[j].OpenPage?
    ensures var t := Handle(req, env);
            forall j :: 0 <= j < |t| && t[j].OpenPage? ==>
              req.url.Some? && t[j].geo == ChannelCoordinates[GpsChannel(ChannelOf(req.url.value))]
  {
    if req.url.Some? {
      DecidedOpensFirst(req.url.value, ResolveGeolocation(req.url.value), req, env);
    }
  }

  /**
   * The handler navigates only to the target of the request: the `url`
   * parameter itself, or the alias url of the route name
   * (ncc-8-0.js:298-329, 522-530).
   */
  lemma NavigatesToTarget(req: Request, env: Environment)
    ensures forall e :: e in Handle(req, env) && e.Navigate? ==>
              req.url.Some? && TargetUrl(req.url.value, req.name) == Some(e.url)
  {
    if req.url.Some? {
      var u := req.url.value;
      var d := ResolveGeolocation(u);
      if d.Located? && env.pageOpens {
        AfterOpenNavigatesToTarget(u, req, env);
        DecidedLocated(u, d, req, env);
      }
    }
  }

  /** Every Navigate in `s` goes to `target`. */
  predicate NavigatesOnlyTo(s: seq<Effect>, target: Option<string>)
  {
    forall e :: e in s && e.Navigate? ==> target == Some(e.url)
  }

  /** The navigation block goes to its target; the CBS block and the script do not navigate. */
  lemma PiecesNavigate(urlParam: string, target: Option<string>, wait: bool, minimize: bool, env: Environment)
    ensures NavigatesOnlyTo(NavigationEffects(target, wait, minimize, env), target)
    ensures NavigatesOnlyTo(ScriptEffects(urlParam, PageFor(urlParam, env)), target)
    ensures NavigatesOnlyTo(CbsEffects(urlParam, PageFor(urlParam, env)), target)
  {
  }

  /** After the page opens, the handler navigates only to the request's target. */
  lemma AfterOpenNavigatesToTarget(urlParam: string, req: Request, env: Environment)
    ensures NavigatesOnlyTo(AfterOpen(urlParam, req, env), TargetUrl(urlParam, req.name))
  {
    var target := TargetUrl(urlParam, req.name);
    var wait := WaitForVideo(req.waitForVideo, req.name);
    var nav := NavigationEffects(target, wait, MinimizeWindow(env.platform, wait), env);
    var page := PageFor(urlParam, env);
    PiecesNavigate(urlParam, target, wait, MinimizeWindow(env.platform, wait), env);
    AfterOpenShape(urlParam, req, env);
    var rest := if env.streamStarts then [StartStream(EncoderFor(urlParam))] + nav + ScriptEffects(urlParam, page)
                else [Respond(500), ClosePage];
    assert NavigatesOnlyTo(rest, target);
    assert AfterOpen(urlParam, req, env) == CbsEffects(urlParam, page) + rest;
  }

  /** Every Minimize in `s` comes straight after a ResizeWindow. */
  predicate MinimizeAfterResize(s: seq<Effect>)
  {
    forall j :: 0 <= j < |s| && s[j] == Minimize ==> j > 0 && s[j - 1].ResizeWindow?
  }

  lemma MinimizeAfterResizeConcat(a: seq<Effect>, b: seq<Effect>)
    requires MinimizeAfterResize(a) && MinimizeAfterResize(b)
    requires |b| > 0 ==> b[0] != Minimize
    ensures MinimizeAfterResize(a + b)
  {
    forall j | 0 <= j < |a + b| && (a + b)[j] == Minimize
      ensures j > 0 && (a + b)[j - 1].ResizeWindow?
    {
      if j >= |a| {
        assert b[j - |a|] == Minimize;
        assert (a + b)[j - 1] == b[j - |a| - 1];
      }
    }
  }

  /** Inside the navigation block, a Minimize follows the resize and is asked for. */
  lemma NavigationMinimize(target: Option<string>, wait: bool, minimize: bool, env: Environment)
    ensures MinimizeAfterResize(NavigationEffects(target, wait, minimize, env))
    ensures Minimize in NavigationEffects(target, wait, minimize, env) ==> minimize
    ensures |NavigationEffects(target, wait, minimize, env)| > 0 ==> NavigationEffects(target, wait, minimize, env)[0].Navigate?
  {
  }

  /** The CBS block, then the stream and navigation block and script, or the failure: Minimize only from the navigation. */
  lemma MinimizeInParts(cbs: seq<Effect>, first: Effect, nav: seq<Effect>, script: seq<Effect>, starts: bool)
    requires Minimize !in cbs && Minimize !in script && first != Minimize
    requires MinimizeAfterResize(nav) && (|nav| > 0 ==> nav[0] != Minimize)
    ensures var t := cbs + (if starts then [first] + nav + script else [Respond(500), ClosePage]);
            MinimizeAfterResize(t) && (Minimize in t ==> Minimize in nav)
  {
    forall j | 0 <= j < |cbs|
      ensures cbs[j] != Minimize
    {
      assert cbs[j] in cbs;
    }
    forall j | 0 <= j < |script|
      ensures script[j] != Minimize
    {
      assert script[j] in script;
    }
    MinimizeAfterResizeConcat([first], nav);
    MinimizeAfterResizeConcat([first] + nav, script);
    var rest := if starts then [first] + nav + script else [Respond(500), ClosePage];
    MinimizeAfterResizeConcat(cbs, rest);
  }

  /** After the page opens, a Minimize follows a resize and is asked for by the flags. */
  lemma AfterOpenMinimize(urlParam: string, req: Request, env: Environment)
    ensures MinimizeAfterResize(AfterOpen(urlParam, req, env))
    ensures Minimize in AfterOpen(urlParam, req, env) ==>
              MinimizeWindow(env.platform, WaitForVideo(req.waitForVideo, req.name))
  {
    var wait := WaitForVideo(req.waitForVideo, req.name);
    var minimize := MinimizeWindow(env.platform, wait);
    var nav := NavigationEffects(TargetUrl(urlParam, req.name), wait, minimize, env);
    AfterOpenShape(urlParam, req, env);
    NavigationMinimize(TargetUrl(urlParam, req.name), wait, minimize, env);
    CbsAndScriptDoNotResize(urlParam, PageFor(urlParam, env));
    MinimizeInParts(CbsEffects(urlParam, PageFor(urlParam, env)), StartStream(EncoderFor(urlParam)), nav,
                    ScriptEffects(urlParam, PageFor(urlParam, env)), env.streamStarts);
  }

  lemma DecidedMinimize(urlParam: string, d: GeoDecision, req: Request, env: Environment)
    ensures MinimizeAfterResize(Decided(urlParam, d, req, env))
    ensures Minimize in Decided(urlParam, d, req, env) ==>
              MinimizeWindow(env.platform, WaitForVideo(req.waitForVideo, req.name))
  {
    if d.Located? && env.pageOpens {
      AfterOpenMinimize(urlParam, req, env);
      MinimizeAfterResizeConcat([OpenPage(d.geo)], AfterOpen(urlParam, req, env));
    }
  }

  /** A minimise request comes straight after the resize. */
  lemma MinimizeFollowsResize(req: Request, env: Environment)
    ensures MinimizeAfterResize(Handle(req, env))
  {
    if req.url.Some? {
      DecidedMinimize(req.url.value, ResolveGeolocation(req.url.value), req, env);
    }
  }

  /** The window is minimised only on macOS while waiting for the video. */
  lemma MinimizeOnlyOnMacWhileWaiting(req: Request, env: Environment)
    ensures Minimize in Handle(req, env) ==>
              env.platform == "darwin" && WaitForVideo(req.waitForVideo, req.name)
  {
    if req.url.Some? {
      DecidedMinimize(req.url.value, ResolveGeolocation(req.url.value), req, env);
    }
  }

  /** Every ResizeWindow holds the viewport plus the chrome, and needs navigation and window control. */
  predicate ResizesKeepViewport(t: seq<Effect>, env: Environment)
  {
    forall e :: e in t && e.ResizeWindow? ==>
      e.bounds.width == 1920 + (env.chrome.outerWidth - env.chrome.innerWidth) &&
      e.bounds.height == 1080 + (env.chrome.outerHeight - env.chrome.innerHeight) &&
      env.navigates && env.windowControl
  }

  lemma ResizesKeepViewportConcat(a: seq<Effect>, b: seq<Effect>, env: Environment)
    requires ResizesKeepViewport(a, env) && ResizesKeepViewport(b, env)
    ensures ResizesKeepViewport(a + b, env)
  {
  }

  lemma NavigationResizes(target: Option<string>, wait: bool, minimize: bool, env: Environment)
    ensures ResizesKeepViewport(NavigationEffects(target, wait, minimize, env), env)
  {
  }

  /** The CBS block and the script hold no ResizeWindow. */
  lemma CbsAndScriptDoNotResize(urlParam: string, page: PageState)
    ensures forall e :: e in CbsEffects(urlParam, page) ==> e.ScheduleCbs?
    ensures forall e :: e in ScriptEffects(urlParam, page) ==> e.RunScript?
  {
  }

  lemma ResizesInParts(cbs: seq<Effect>, first: Effect, nav: seq<Effect>, script: seq<Effect>, starts: bool, env: Environment)
    requires forall e :: e in cbs ==> e.ScheduleCbs?
    requires forall e :: e in script ==> e.RunScript?
    requires ResizesKeepViewport(nav, env) && !first.ResizeWindow?
    ensures ResizesKeepViewport(cbs + (if starts then [first] + nav + script else [Respond(500), ClosePage]), env)
  {
  }

  lemma AfterOpenResizes(urlParam: string, req: Request, env: Environment)
    ensures ResizesKeepViewport(AfterOpen(urlParam, req, env), env)
  {
    var wait := WaitForVideo(req.waitForVideo, req.name);
    var minimize := MinimizeWindow(env.platform, wait);
    var nav := NavigationEffects(TargetUrl(urlParam, req.name), wait, minimize, env);
    AfterOpenShape(urlParam, req, env);
    NavigationResizes(TargetUrl(urlParam, req.name), wait, minimize, env);
    CbsAndScriptDoNotResize(urlParam, PageFor(urlParam, env));
    ResizesInParts(CbsEffects(urlParam, PageFor(urlParam, env)), StartStream(EncoderFor(urlParam)), nav,
                   ScriptEffects(urlParam, PageFor(urlParam, env)), env.streamStarts, env);
  }

  lemma DecidedResizes(urlParam: string, d: GeoDecision, req: Request, env: Environment)
    ensures ResizesKeepViewport(Decided(urlParam, d, req, env), env)
  {
    if d.Located? && env.pageOpens {
      AfterOpenResizes(urlParam, req, env);
      ResizesKeepViewportConcat([OpenPage(d.geo)], AfterOpen(urlParam, req, env), env);
    }
  }

  /**
   * The window is resized to the 1920 x 1080 viewport plus the browser
   * chrome, and only after a successful navigation.
   */
  lemma ResizeKeepsViewport(req: Request, env: Environment)
    ensures ResizesKeepViewport(Handle(req, env), env)
  {
    if req.url.Some? {
      DecidedResizes(req.url.value, ResolveGeolocation(req.url.value), req, env);
    }
  }

  /** A stream that cannot start ends the trace with 500 and the closing of the page. */
  lemma DecidedStreamFailure(urlParam: string, d: GeoDecision, req: Request, env: Environment)
    requires d.Located? && env.pageOpens && !env.streamStarts
    ensures var t := Decided(urlParam, d, req, env);
            |t| >= 3 && t[|t| - 2] == Respond(500) && t[|t| - 1] == ClosePage &&
            forall e :: e in t ==> !e.Navigate? && !e.RunScript? && !e.StartStream?
  {
  }

  /**
   * When the stream cannot start the handler answers 500 and closes the
   * page, then stops: no navigation and no script.
   */
  lemma StreamFailureStops(req: Request, env: Environment)
    requires req.url.Some? && env.pageOpens && !env.streamStarts
    ensures var t := Handle(req, env);
            |t| >= 3 && t[|t| - 2] == Respond(500) && t[|t| - 1] == ClosePage &&
            forall e :: e in t ==> !e.Navigate? && !e.RunScript? && !e.StartStream?
  {
    NotFoundUnreachable(req.url.value);
    DecidedStreamFailure(req.url.value, ResolveGeolocation(req.url.value), req, env);
  }

  /** Only the start of the stream itself starts a stream. */
  lemma PiecesStartNoStream(urlParam: string, target: Option<string>, wait: bool, minimize: bool, env: Environment)
    ensures forall e :: e in NavigationEffects(target, wait, minimize, env) ==> !e.StartStream?
    ensures forall e :: e in ScriptEffects(urlParam, PageFor(urlParam, env)) ==> !e.StartStream?
    ensures forall e :: e in CbsEffects(urlParam, PageFor(urlParam, env)) ==> !e.StartStream?
  {
  }

  lemma DecidedEncoder(urlParam: string, d: GeoDecision, req: Request, env: Environment)
    ensures forall e :: e in Decided(urlParam, d, req, env) && e.StartStream? ==> e.encoder == EncoderFor(urlParam)
  {
    if d.Located? && env.pageOpens {
      var wait := WaitForVideo(req.waitForVideo, req.name);
      var minimize := MinimizeWindow(env.platform, wait);
      var nav := NavigationEffects(TargetUrl(urlParam, req.name), wait, minimize, env);
      var script := ScriptEffects(urlParam, PageFor(urlParam, env));
      var cbs := CbsEffects(urlParam, PageFor(urlParam, env));
      PiecesStartNoStream(urlParam, TargetUrl(urlParam, req.name), wait, minimize, env);
      var first := [StartStream(EncoderFor(urlParam))];
      var rest := if env.streamStarts then first + nav + script else [Respond(500), ClosePage];
      assert forall e :: e in rest && e.StartStream? ==> e == first[0];
      assert Decided(urlParam, d, req, env) == [OpenPage(d.geo)] + (cbs + rest);
    }
  }

  /**
   * The stream is encoded with the settings chosen from the `url`
   * parameter, even when the route's alias sends the page elsewhere.
   */
  lemma EncoderFollowsUrlParameter(req: Request, env: Environment)
    ensures forall e :: e in Handle(req, env) && e.StartStream? ==>
              req.url.Some? && e.encoder == EncoderFor(req.url.value)
  {
    if req.url.Some? {
      DecidedEncoder(req.url.value, ResolveGeolocation(req.url.value), req, env);
    }
  }

  lemma DecidedScriptLast(urlParam: string, d: GeoDecision, req: Request, env: Environment)
    requires d.Located? && env.pageOpens && env.streamStarts
    requires SelectSite(urlParam).Some?
    ensures var t := Decided(urlParam, d, req, env);
            |t| > 0 && t[|t| - 1] == RunScript(SelectSite(urlParam).value, ScriptFor(SelectSite(urlParam).value, PageFor(urlParam, env)))
  {
  }

  /**
   * Once the stream has started, the selected site's script runs whether
   * or not the navigation succeeded, and it is the last effect.
   */
  lemma ScriptRunsAfterStreamStarts(req: Request, env: Environment)
    requires req.url.Some? && env.pageOpens && env.streamStarts
    requires SelectSite(req.url.value).Some?
    ensures var t := Handle(req, env);
            |t| > 0 && t[|t| - 1] == RunScript(SelectSite(req.url.value).value,
                                               ScriptFor(SelectSite(req.url.value).value, PageFor(req.url.value, env)))
  {
    NotFoundUnreachable(req.url.value);
    DecidedScriptLast(req.url.value, ResolveGeolocation(req.url.value), req, env);
  }

  /** At most one response status in `t`, and at most one ClosePage. */
  predicate AtMostOneEach(t: seq<Effect>)
  {
    forall i, j :: 0 <= i < j < |t| ==> !(t[i].Respond? && t[j].Respond?) && !(t[i] == ClosePage && t[j] == ClosePage)
  }

  /** Effects with no response and no ClosePage in front of `b` keep it at most one each. */
  lemma AtMostOneEachAfterSilent(a: seq<Effect>, b: seq<Effect>)
    requires forall e :: e in a ==> !e.Respond? && e != ClosePage
    requires AtMostOneEach(b)
    ensures AtMostOneEach(a + b)
  {
    var t := a + b;
    forall i, j | 0 <= i < j < |t|
      ensures !(t[i].Respond? && t[j].Respond?) && !(t[i] == ClosePage && t[j] == ClosePage)
    {
      if i < |a| {
        assert t[i] in a;
      } else {
        assert t[i] == b[i - |a|] && t[j] == b[j - |a|];
      }
    }
  }

  lemma QuietAtMostOne(s: seq<Effect>)
    requires Quiet(s)
    ensures AtMostOneEach(s)
  {
    forall i | 0 <= i < |s|
      ensures !s[i].Respond? && s[i] != ClosePage
    {
      assert s[i] in s;
    }
  }

  lemma AtMostOneInParts(cbs: seq<Effect>, first: Effect, nav: seq<Effect>, script: seq<Effect>, starts: bool)
    requires forall e :: e in cbs ==> e.ScheduleCbs?
    requires forall e :: e in script ==> e.RunScript?
    requires Quiet(nav) && first.StartStream?
    ensures AtMostOneEach(cbs + (if starts then [first] + nav + script else [Respond(500), ClosePage]))
  {
    var rest := if starts then [first] + nav + script else [Respond(500), ClosePage];
    if starts {
      assert Quiet(rest);
      QuietAtMostOne(rest);
    }
    AtMostOneEachAfterSilent(cbs, rest);
  }

  lemma AfterOpenAtMostOne(urlParam: string, req: Request, env: Environment)
    ensures AtMostOneEach(AfterOpen(urlParam, req, env))
    ensures forall e :: e in CbsEffects(urlParam, PageFor(urlParam, env)) ==> !e.Respond? && e != ClosePage
  {
    var wait := WaitForVideo(req.waitForVideo, req.name);
    var minimize := MinimizeWindow(env.platform, wait);
    var nav := NavigationEffects(TargetUrl(urlParam, req.name), wait, minimize, env);
    AfterOpenShape(urlParam, req, env);
    PiecesAreQuiet(urlParam, TargetUrl(urlParam, req.name), wait, minimize, env);
    CbsAndScriptDoNotResize(urlParam, PageFor(urlParam, env));
    AtMostOneInParts(CbsEffects(urlParam, PageFor(urlParam, env)), StartStream(EncoderFor(urlParam)), nav,
                     ScriptEffects(urlParam, PageFor(urlParam, env)), env.streamStarts);
  }

  lemma DecidedAtMostOne(urlParam: string, d: GeoDecision, req: Request, env: Environment)
    ensures AtMostOneEach(Decided(urlParam, d, req, env))
  {
    if d.Located? && env.pageOpens {
      AfterOpenAtMostOne(urlParam, req, env);
      AtMostOneEachAfterSilent([OpenPage(d.geo)], AfterOpen(urlParam, req, env));
    }
  }

  /** At most one response status is sent, and the page is closed at most once. */
  lemma AtMostOneResponse(req: Request, env: Environment)
    ensures AtMostOneEach(Handle(req, env))
  {
    if req.url.Some? {
      DecidedAtMostOne(req.url.value, ResolveGeolocation(req.url.value), req, env);
    }
  }

  /** Without a `url` parameter no page is opened and the answer is 500. */
  lemma MissingUrlAnswers500(req: Request, env: Environment)
    requires req.url.None?
    ensures Handle(req, env) == [Respond(500)]
  {
  }

  // ---------------------------------------------------------------------
  // The CBS block beside the dispatch chain, and the channel DirecTV types

  /** Only the CBS block schedules anything. */
  lemma StartedSchedulesNothing(urlParam: string, req: Request, env: Environment)
    ensures forall e :: e in Started(urlParam, req, env) ==> !e.ScheduleCbs?
  {
    var wait := WaitForVideo(req.waitForVideo, req.name);
    var nav := NavigationEffects(TargetUrl(urlParam, req.name), wait, MinimizeWindow(env.platform, wait), env);
    assert forall e :: e in nav ==> !e.ScheduleCbs?;
    CbsAndScriptDoNotResize(urlParam, PageFor(urlParam, env));
  }

  /**
   * In `t` the CBS block `x` is scheduled exactly when `c`, and then as the
   * second effect; nothing else is scheduled.
   */
  predicate CbsScheduledWhen(t: seq<Effect>, x: Effect, c: bool)
  {
    (x in t <==> c) && (forall e :: e in t && e.ScheduleCbs? ==> e == x) && (c ==> |t| > 1 && t[1] == x)
  }

  lemma ScheduledOnlyWhen(t: seq<Effect>, first: Effect, cbs: seq<Effect>, rest: seq<Effect>, x: Effect, c: bool)
    requires !first.ScheduleCbs? && x.ScheduleCbs? && cbs == (if c then [x] else [])
    requires forall e :: e in rest ==> !e.ScheduleCbs?
    requires t == [first] + (cbs + rest)
    ensures CbsScheduledWhen(t, x, c)
  {
    assert x !in rest;
    assert t == [first] + cbs + rest;
  }

  /** After the page opens, the CBS block comes first, and nothing after it schedules anything. */
  lemma AfterOpenCbsFirst(urlParam: string, req: Request, env: Environment) returns (rest: seq<Effect>)
    ensures AfterOpen(urlParam, req, env) == CbsEffects(urlParam, PageFor(urlParam, env)) + rest
    ensures forall e :: e in rest ==> !e.ScheduleCbs?
  {
    rest := if !env.streamStarts then [Respond(500), ClosePage] else Started(urlParam, req, env);
    StartedSchedulesNothing(urlParam, req, env);
  }

  /** A located request whose page opens continues with what follows the opening. */
  lemma DecidedLocated(urlParam: string, d: GeoDecision, req: Request, env: Environment)
    requires d.Located? && env.pageOpens
    ensures Decided(urlParam, d, req, env) == [OpenPage(d.geo)] + AfterOpen(urlParam, req, env)
  {
  }

  /** The CBS block's effects, as scheduled by the handler. */
  lemma CbsEffectsShape(urlParam: string, page: PageState)
    ensures CbsEffects(urlParam, page) ==
              if Contains(urlParam, CbsStreamPage) then [ScheduleCbs(CbsScript(urlParam, page.pagesOpen))] else []
  {
  }

  lemma DecidedCbs(urlParam: string, d: GeoDecision, req: Request, env: Environment)
    requires d.Located? && env.pageOpens
    ensures CbsScheduledWhen(Decided(urlParam, d, req, env), ScheduleCbs(CbsScript(urlParam, env.pagesOpen)),
                             Contains(urlParam, CbsStreamPage))
  {
    var rest := AfterOpenCbsFirst(urlParam, req, env);
    DecidedLocated(urlParam, d, req, env);
    CbsEffectsShape(urlParam, PageFor(urlParam, env));
    ScheduledOnlyWhen(Decided(urlParam, d, req, env), OpenPage(d.geo), CbsEffects(urlParam, PageFor(urlParam, env)), rest,
                      ScheduleCbs(CbsScript(urlParam, env.pagesOpen)), Contains(urlParam, CbsStreamPage));
  }

  /**
   * The CBS block and the dispatch chain are independent: the block is
   * scheduled, straight after the page opens, exactly when the URL names a
   * CBS stream page, whatever site the chain selects; and once the stream
   * starts, the selected site's script is the last effect whether or not
   * the block was scheduled.
   */
  lemma CbsBlockBesideDispatch(req: Request, env: Environment)
    requires req.url.Some? && env.pageOpens
    ensures CbsScheduledWhen(Handle(req, env), ScheduleCbs(CbsScript(req.url.value, env.pagesOpen)),
                             Contains(req.url.value, CbsStreamPage))
    ensures var u := req.url.value;
            var t := Handle(req, env);
            env.streamStarts && SelectSite(u).Some? ==>
              |t| > 0 && t[|t| - 1] == RunScript(SelectSite(u).value, ScriptFor(SelectSite(u).value, PageFor(u, env)))
  {
    NotFoundUnreachable(req.url.value);
    DecidedCbs(req.url.value, ResolveGeolocation(req.url.value), req, env);
    if env.streamStarts && SelectSite(req.url.value).Some? {
      ScriptRunsAfterStreamStarts(req, env);
    }
  }

  /**
   * DirecTV types the `ch=` value of the `url` parameter: with a page
   * open and the stream started, its script is the last effect and types
   * that value at step 19, or stops after the Tab rounds when there is
   * none.
   */
  lemma DirecTVTypesUrlChannel(req: Request, env: Environment)
    requires req.url.Some? && env.pageOpens && env.streamStarts && env.pagesOpen
    requires SelectSite(req.url.value) == Some(DirecTV)
    ensures var u := req.url.value;
            var t := Handle(req, env);
            |t| > 0 && t[|t| - 1].RunScript? && t[|t| - 1].site == DirecTV &&
            (ChannelOf(u).Some? ==> |t[|t| - 1].steps| == 26 && t[|t| - 1].steps[19] == Type(ChannelOf(u).value)) &&
            (ChannelOf(u).None? ==> |t[|t| - 1].steps| == 19)
  {
    ScriptRunsAfterStreamStarts(req, env);
    DirecTVTypesChannel(PageFor(req.url.value, env));
  }
}
