// The per-request settings of the `/stream/:name?` handler of ncc-8-0.js:
// the alias table, the waitForVideo and minimizeWindow flags, the encoder
// settings chain and the window size.
module StreamSettings {
  import opened Options
  import opened Text


  /** The nbc.com live-player URL for a brand and call sign. */
  function NbcLive(brand: string, callsign: string): (u: string)
    ensures MatchesAt(u, "https://www.nbc.com/live?brand=", 0)
    ensures MatchesAt(u, "nbc.com", 12)
  {
    var p := "https://www.nbc.com/live?brand=";
    var u := p + brand + "&callsign=" + callsign;
    assert u[..|p|] == p;
    assert u[12..19] == p[12..19] == "nbc.com";
    u
  }

  const Aliases: map<string, string> := map[
    "nbc" := NbcLive("nbc", "nbc"),
    "cnbc" := NbcLive("cnbc", "cnbc"),
    "msnbc" := NbcLive("msnbc", "msnbc"),
    "nbcnews" := NbcLive("nbc-news", "nbcnews"),
    "bravo" := NbcLive("bravo", "bravo_east"),
    "bravop" := NbcLive("bravo", "bravo_west"),
    "e" := NbcLive("e", "e_east"),
    "ep" := NbcLive("e", "e_west"),
    "golf" := NbcLive("golf", "golf"),
    "oxygen" := NbcLive("oxygen", "oxygen_east"),
    "oxygenp" := NbcLive("oxygen", "oxygen_west"),
    "syfy" := NbcLive("syfy", "syfy_east"),
    "syfyp" := NbcLive("syfy", "syfy_west"),
    "usa" := NbcLive("usa", "usa_east"),
    "usap" := NbcLive("usa", "usa_west"),
    "universo" := NbcLive("nbc-universo", "universo_east"),
    "universop" := NbcLive("nbc-universo", "universo_west"),
    "necn" := NbcLive("necn", "necn"),
    "nbcsbayarea" := NbcLive("rsn-bay-area", "nbcsbayarea"),
    "nbcsboston" := NbcLive("rsn-boston", "nbcsboston"),
    "nbcscalifornia" := NbcLive("rsn-california", "nbcscalifornia"),
    "nbcschicago" := NbcLive("rsn-chicago", "nbcschicago"),
    "nbcsphiladelphia" := NbcLive("rsn-philadelphia", "nbcsphiladelphia"),
    "nbcswashington" := NbcLive("rsn-washington", "nbcswashington"),
    "weatherscan" := "https://weatherscan.net/",
    "windy" := "https://windy.com"
  ]

  /**
   * The page the handler navigates to, `u`: the named alias's URL on
   * `/stream/<name>`, the `url` query parameter otherwise. An unknown
   * name leaves `u` undefined (None).
   */
  function TargetUrl(urlParam: string, name: Option<string>): (u: Option<string>)
    ensures name.None? ==> u == Some(urlParam)
    ensures name.Some? ==> (u.Some? <==> name.value in Aliases)
    ensures name.Some? && u.Some? ==> u.value == Aliases[name.value]
  {
    match name
    case None => Some(urlParam)
    case Some(n) => if n in Aliases then Some(Aliases[n]) else None
  }

  /** Every alias but weatherscan and windy is an nbc.com live page. */
  lemma AliasesAreNbcLivePages(n: string)
    requires n in Aliases
    ensures n != "weatherscan" && n != "windy" ==>
      MatchesAt(Aliases[n], "https://www.nbc.com/live?brand=", 0) && MatchesAt(Aliases[n], "nbc.com", 12)
    ensures n == "weatherscan" || n == "windy" ==> !Contains(Aliases[n], "nbc")
  {
    if n == "weatherscan" || n == "windy" {
      MissingCharExcludes(Aliases[n], "nbc", 'b');
    }
  }

  // ---------------------------------------------------------------------
  // Flags (ncc-8-0.js:373-380)

  /**
   * `waitForVideo`: false exactly when the query parameter is the string
   * 'false' or the route names weatherscan or windy.
   */
  function WaitForVideo(param: Option<string>, name: Option<string>): (r: bool)
    ensures !r <==> param == Some("false") || name == Some("weatherscan") || name == Some("windy")
  {
    var wait := if param == Some("false") then false else true;
    match name
    case Some("weatherscan") => false
    case Some("windy") => false
    case _ => wait
  }

  /** `minimizeWindow`: only on macOS, and only when waiting for the video. */
  function MinimizeWindow(platform: string, waitForVideo: bool): (r: bool)
    ensures r <==> platform == "darwin" && waitForVideo
  {
    var minimize := false;
    if platform == "darwin" && waitForVideo then true else minimize
  }

  /** The weather pages never wait for a video and are never minimised. */
  lemma WeatherPagesSkipWaiting(param: Option<string>, platform: string, name: string)
    requires name == "weatherscan" || name == "windy"
    ensures !WaitForVideo(param, Some(name))
    ensures !MinimizeWindow(platform, WaitForVideo(param, Some(name)))
  {
  }

  // ---------------------------------------------------------------------
  // Encoder settings (ncc-8-0.js:405-431)

  const DefaultVideoBitrate: nat := 5940000
  const HighVideoBitrate: nat := 15400000
  const AudioBitrate: nat := 192000
  const FrameRate: nat := 30

  datatype Encoder = Encoder(videoBitsPerSecond: nat, audioBitsPerSecond: nat, frameRate: nat)

  /**
   * The settings chain. The fourth test really reads "puffer.standford.edu"
   * (sic), so the correctly spelled Puffer host gets the default rate.
   */
  function EncoderFor(urlParam: string): (e: Encoder)
    ensures e.audioBitsPerSecond == AudioBitrate && e.frameRate == FrameRate
    ensures e.videoBitsPerSecond == HighVideoBitrate <==>
      Contains(urlParam, "nbc.com") || Contains(urlParam, "cbs.com") ||
      Contains(urlParam, "peacocktv.com") || Contains(urlParam, "puffer.standford.edu")
    ensures e.videoBitsPerSecond == HighVideoBitrate || e.videoBitsPerSecond == DefaultVideoBitrate
  {
    if Contains(urlParam, "nbc.com") then Encoder(HighVideoBitrate, AudioBitrate, FrameRate)
    else if Contains(urlParam, "cbs.com") then Encoder(HighVideoBitrate, AudioBitrate, FrameRate)
    else if Contains(urlParam, "peacocktv.com") then Encoder(HighVideoBitrate, AudioBitrate, FrameRate)
    else if Contains(urlParam, "puffer.standford.edu") then Encoder(HighVideoBitrate, AudioBitrate, FrameRate)
    else Encoder(DefaultVideoBitrate, AudioBitrate, FrameRate)
  }

  /** A Puffer player URL with the host spelled correctly. */
  const PufferChannelC: string := "https://puffer.stanford.edu/player/?ch=C"

  /** A correctly spelled Puffer player URL gets the default 5,940,000 bps. */
  lemma CorrectPufferSpellingGetsDefaultRate()
    ensures EncoderFor(PufferChannelC).videoBitsPerSecond == DefaultVideoBitrate
  {
    PufferIsNotHighRateHost();
    PufferIsNotMisspelledPuffer();
  }

  /** The URL has no 'b' and no 'k', so it names none of nbc.com, cbs.com and peacocktv.com. */
  lemma PufferIsNotHighRateHost()
    ensures !Contains(PufferChannelC, "nbc.com")
    ensures !Contains(PufferChannelC, "cbs.com")
    ensures !Contains(PufferChannelC, "peacocktv.com")
  {
    MissingCharExcludes(PufferChannelC, "nbc.com", 'b');
    MissingCharExcludes(PufferChannelC, "cbs.com", 'b');
    MissingCharExcludes(PufferChannelC, "peacocktv.com", 'k');
  }

  /** "puffer.stanford.edu" is not "puffer.standford.edu": no 'p' is followed, 11 places on, by a 'd'. */
  lemma PufferIsNotMisspelledPuffer()
    ensures !Contains(PufferChannelC, "puffer.standford.edu")
  {
    var u := PufferChannelC;
    var t := "puffer.standford.edu";
    forall i | 0 <= i <= |u|
      ensures !MatchesAt(u, t, i)
    {
      MatchChar(u, t, i, 0);
      MatchChar(u, t, i, 11);
    }
  }

  /** Every nbc.com alias is encoded at the high rate when it is also the `url` parameter. */
  lemma NbcAliasesGetHighRate(n: string)
    requires n in Aliases && n != "weatherscan" && n != "windy"
    ensures EncoderFor(Aliases[n]).videoBitsPerSecond == HighVideoBitrate
  {
    AliasesAreNbcLivePages(n);
  }

  // ---------------------------------------------------------------------
  // Window bounds (ncc-8-0.js:20-23, 548-562)

  const ViewportWidth: int := 1920
  const ViewportHeight: int := 1080

  /** The window size that leaves exactly the viewport inside the browser chrome. */
  datatype Bounds = Bounds(width: int, height: int)

  function WindowBounds(outerWidth: int, innerWidth: int, outerHeight: int, innerHeight: int): (b: Bounds)
    ensures b.width - (outerWidth - innerWidth) == ViewportWidth
    ensures b.height - (outerHeight - innerHeight) == ViewportHeight
  {
    Bounds(ViewportWidth + (outerWidth - innerWidth), ViewportHeight + (outerHeight - innerHeight))
  }
}
