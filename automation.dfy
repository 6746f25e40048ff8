// The site automation of the `/stream/:name?` handler of ncc-8-0.js: which
// per-site script runs after the page is set up, and the fixed sequence of
// waits, key presses, clicks and fullscreen requests each script performs.
// The scripts are data here; nothing presses a key.
module Automation {
  import opened Options
  import opened Text

  /** The keys the scripts press. `LowerF` is the character 'f', `KeyF` the key code 'KeyF'. */
  datatype Key = Tab | Enter | Space | ArrowDown | ArrowRight | KeyF | LowerF

  /** A click coordinate: absolute pixels, or the fraction num/den of the page's inner width or height. */
  datatype Coord = Pixels(px: nat) | InnerFraction(num: nat, den: nat)

  /** One action of a script. Every click in the source uses the left button. */
  datatype Step =
    | Wait(ms: nat)
    | Press(key: Key)
    | Type(text: string)
    | LeftClick(x: Coord, y: Coord)
    | Fullscreen
      /** `setInterval` pressing `key` every `periodMs` milliseconds for the life of the page. */
    | KeepAlive(key: Key, periodMs: nat)
    | AwaitNavigation

  /** The sites the dispatch chain knows; a Puffer site carries its channel letter. */
  datatype Site = DirecTV | Spectrum | Puffer(letter: char) | Nbc | Wsfa | Abc | Peacock

  /**
   * What the scripts read when they run: the extracted `ch=` value, the
   * page's current URL (Puffer may have been redirected to its login page)
   * and whether the browser has any page open.
   */
  datatype PageState = PageState(channel: Option<string>, currentUrl: string, pagesOpen: bool)

  // ---------------------------------------------------------------------
  // Repetition (the `for` loops at ncc-8-0.js:591-595 and 1474-1476)

  /** `block` performed `n` times in a row. */
  function Repeat(block: seq<Step>, n: nat): (r: seq<Step>)
    ensures |r| == n * |block|
  {
    if n == 0 then [] else block + Repeat(block, n - 1)
  }

  /** How many steps of `s` are `x`. */
  function Count(s: seq<Step>, x: Step): (c: nat)
    ensures c <= |s|
  {
    if s == [] then 0 else (if s[0] == x then 1 else 0) + Count(s[1..], x)
  }

  /** A step that does not occur counts zero times. */
  lemma {:induction false} CountAbsent(s: seq<Step>, x: Step)
    requires x !in s
    ensures Count(s, x) == 0
  {
    if s != [] {
      assert x !in s[1..];
      CountAbsent(s[1..], x);
    }
  }

  /** Counting distributes over putting scripts one after the other. */
  lemma {:induction false} CountConcat(a: seq<Step>, b: seq<Step>, x: Step)
    ensures Count(a + b, x) == Count(a, x) + Count(b, x)
  {
    if a != [] {
      assert (a + b)[1..] == a[1..] + b;
      CountConcat(a[1..], b, x);
    } else {
      assert a + b == b;
    }
  }

  /** One more round can equally be put at the end. */
  lemma {:induction false} RepeatSnoc(block: seq<Step>, n: nat)
    ensures Repeat(block, n) + block == Repeat(block, n + 1)
  {
    if n > 0 {
      RepeatSnoc(block, n - 1);
      calc {
        Repeat(block, n) + block;
        block + Repeat(block, n - 1) + block;
        block + (Repeat(block, n - 1) + block);
        block + Repeat(block, n);
      }
    }
  }

  /** A repetition holds nothing but the block's steps. */
  lemma {:induction false} RepeatMembers(block: seq<Step>, n: nat)
    ensures forall x :: x in Repeat(block, n) ==> x in block
  {
    if n > 0 {
      RepeatMembers(block, n - 1);
    }
  }

  /** Each step occurs `n` times as often as in the block. */
  lemma {:induction false} RepeatCount(block: seq<Step>, n: nat, x: Step)
    ensures Count(Repeat(block, n), x) == n * Count(block, x)
  {
    if n > 0 {
      RepeatCount(block, n - 1, x);
      CountConcat(block, Repeat(block, n - 1), x);
      assert n * Count(block, x) == (n - 1) * Count(block, x) + Count(block, x);
    }
  }

  /** The counting loop: `for (let i = 0; i < n; i++) { ...block... }`. */
  method RunRepeated(block: seq<Step>, n: nat) returns (steps: seq<Step>)
    ensures steps == Repeat(block, n)
  {
    steps := [];
    var i := 0;
    while i < n
      invariant 0 <= i <= n
      invariant steps == Repeat(block, i)
    {
      RepeatSnoc(block, i);
      steps := steps + block;
      i := i + 1;
    }
  }

  // ---------------------------------------------------------------------
  // Per-site scripts

  /** DirecTV: one search round, wait 700, Tab, wait 500. */
  const TabCycle: seq<Step> := [Wait(700), Press(Tab), Wait(500)]

  /** The DirecTV loop's bound (ncc-8-0.js:591). */
  const DirecTVRounds: nat := 6

  /** What DirecTV does once the channel is typed: pick the first result, then fullscreen. */
  function DirecTVTune(channel: string): seq<Step>
  {
    [Type(channel), Wait(85), Wait(1030), LeftClick(Pixels(755), Pixels(150)), Wait(10000), Wait(1030), Fullscreen]
  }

  /**
   * DirecTV (ncc-8-0.js:585-624): after a 65 ms timer, the Tab rounds,
   * the channel typed in, a click on the first result and fullscreen.
   * Typing a missing (null) channel throws and ends the script. Nothing
   * after the timer runs when the browser has no page open.
   */
  function DirecTVScript(page: PageState): seq<Step>
  {
    [Wait(65)] +
    if !page.pagesOpen then []
    else
      Repeat(TabCycle, DirecTVRounds) +
      match page.channel
      case None => []
      case Some(c) => DirecTVTune(c)
  }

  /** Spectrum and WSFA (ncc-8-0.js:634-646, 1443-1455): wait 1030, then fullscreen. */
  const FullscreenScript: seq<Step> := [Wait(1030), Fullscreen]

  /** NBC and Peacock (ncc-8-0.js:1416-1430, 1499-1513): KeyF, then ArrowRight every 3.5 hours. */
  const KeepPlayingScript: seq<Step> := [Press(KeyF), KeepAlive(ArrowRight, 12600000)]

  /** The ABC loop's bound (ncc-8-0.js:1474). */
  const AbcTabs: nat := 17

  /** ABC (ncc-8-0.js:1465-1489): the Tabs, wait 3, Enter, when a page is open. */
  function AbcScript(page: PageState): seq<Step>
  {
    if page.pagesOpen then Repeat([Press(Tab)], AbcTabs) + [Wait(3), Press(Enter)] else []
  }

  /** The page a Puffer session lands on when it is not logged in. */
  const PufferLoginPage: string := "puffer.stanford.edu/accounts/login"

  /** The `handleLogin` sub-flow. */
  const LoginSteps: seq<Step> :=
    [Press(Tab), Wait(100), Press(Tab), Press(Space), Wait(100), Press(Tab), Press(Enter), AwaitNavigation]

  /** Puffer's channel letters in dispatch order. */
  const PufferLetters: string := "CINFPWA"

  /** How many times a Puffer channel's script presses the down arrow. */
  function ArrowCount(letter: char): nat
  {
    match letter
    case 'I' => 1
    case 'N' => 2
    case 'F' => 3
    case 'P' => 4
    case 'W' => 5
    case 'A' => 6
    case _ => 0
  }

  /** One press of the down arrow followed by the 500 ms pause. */
  const DownAndPause: seq<Step> := [Press(ArrowDown), Wait(500)]

  /**
   * The arrow presses before Space in `pressDownThenSpaceThenF`. The
   * I and N scripts pause after their last arrow; the F, P, W and A
   * scripts do not.
   */
  function ArrowSteps(letter: char): seq<Step>
  {
    var n := ArrowCount(letter);
    if n <= 2 then Repeat(DownAndPause, n) else Repeat(DownAndPause, n - 1) + [Press(ArrowDown)]
  }

  /** Click at (0.31, 0.79) of the inner size and press KeyF, run only when a page is open. */
  const PlayerFullscreen: seq<Step> :=
    [Wait(50), Wait(200), LeftClick(InnerFraction(31, 100), InnerFraction(79, 100)), Wait(150), Press(KeyF)]

  /** A Puffer channel (ncc-8-0.js:651-1408): log in if redirected, arrows, Space, then the click. */
  function PufferScript(letter: char, page: PageState): seq<Step>
  {
    (if Contains(page.currentUrl, PufferLoginPage) then LoginSteps else []) +
    ArrowSteps(letter) + [Press(Space)] +
    (if page.pagesOpen then PlayerFullscreen else [])
  }

  function ScriptFor(site: Site, page: PageState): seq<Step>
  {
    match site
    case DirecTV => DirecTVScript(page)
    case Spectrum => FullscreenScript
    case Puffer(letter) => PufferScript(letter, page)
    case Nbc => KeepPlayingScript
    case Wsfa => FullscreenScript
    case Abc => AbcScript(page)
    case Peacock => KeepPlayingScript
  }

  // ---------------------------------------------------------------------
  // What the scripts add up to

  /** Spectrum and WSFA read nothing of the page state: a fullscreen request 1030 ms on. */
  lemma FullscreenSiteScript(site: Site, page: PageState, other: PageState)
    requires site == Spectrum || site == Wsfa
    ensures ScriptFor(site, page) == ScriptFor(site, other) == [Wait(1030), Fullscreen]
  {
  }

  /** NBC and Peacock read nothing of the page state: KeyF, then ArrowRight every three and a half hours. */
  lemma KeepPlayingSiteScript(site: Site, page: PageState, other: PageState)
    requires site == Nbc || site == Peacock
    ensures ScriptFor(site, page) == ScriptFor(site, other)
    ensures |ScriptFor(site, page)| == 2 && ScriptFor(site, page)[0] == Press(KeyF)
    ensures ScriptFor(site, page)[1].KeepAlive? && ScriptFor(site, page)[1].key == ArrowRight
    ensures 2 * ScriptFor(site, page)[1].periodMs == 7 * 60 * 60 * 1000
  {
  }

  /** Every Tab in `s` has a 700 ms wait just before it and a 500 ms wait just after it. */
  predicate TabsBetweenWaits(s: seq<Step>)
  {
    forall i :: 0 <= i < |s| && s[i] == Press(Tab) ==>
      0 < i < |s| - 1 && s[i - 1] == Wait(700) && s[i + 1] == Wait(500)
  }

  lemma TabsBetweenWaitsConcat(a: seq<Step>, b: seq<Step>)
    requires TabsBetweenWaits(a) && TabsBetweenWaits(b)
    ensures TabsBetweenWaits(a + b)
  {
    forall i | 0 <= i < |a + b| && (a + b)[i] == Press(Tab)
      ensures 0 < i < |a + b| - 1 && (a + b)[i - 1] == Wait(700) && (a + b)[i + 1] == Wait(500)
    {
      if i >= |a| {
        assert b[i - |a|] == Press(Tab);
      } else {
        assert a[i] == Press(Tab);
      }
    }
  }

  lemma {:induction false} TabRoundsBetweenWaits(n: nat)
    ensures TabsBetweenWaits(Repeat(TabCycle, n))
  {
    if n > 0 {
      TabRoundsBetweenWaits(n - 1);
      TabsBetweenWaitsConcat(TabCycle, Repeat(TabCycle, n - 1));
    }
  }

  /** The DirecTV script is the timer, the Tab rounds, and the tuning steps when there is a channel. */
  lemma DirecTVParts(page: PageState)
    requires page.pagesOpen
    ensures var tail := if page.channel.Some? then DirecTVTune(page.channel.value) else [];
            DirecTVScript(page) == [Wait(65)] + Repeat(TabCycle, DirecTVRounds) + tail &&
            |Repeat(TabCycle, DirecTVRounds)| == 18 && Press(Tab) !in tail
  {
  }

  /**
   * With a page open DirecTV presses Tab six times; with no page open only
   * the timer runs.
   */
  lemma DirecTVTabCount(page: PageState)
    ensures !page.pagesOpen ==> DirecTVScript(page) == [Wait(65)]
    ensures page.pagesOpen ==> Count(DirecTVScript(page), Press(Tab)) == 6
  {
    if page.pagesOpen {
      DirecTVParts(page);
      var rounds := Repeat(TabCycle, DirecTVRounds);
      var tail := if page.channel.Some? then DirecTVTune(page.channel.value) else [];
      RepeatCount(TabCycle, DirecTVRounds, Press(Tab));
      assert Count(TabCycle, Press(Tab)) == 1;
      CountAbsent(tail, Press(Tab));
      CountConcat([Wait(65)], rounds, Press(Tab));
      CountConcat([Wait(65)] + rounds, tail, Press(Tab));
    }
  }

  /** Every DirecTV Tab sits between a 700 ms and a 500 ms wait. */
  lemma DirecTVTabsBetweenWaits(page: PageState)
    ensures TabsBetweenWaits(DirecTVScript(page))
  {
    if page.pagesOpen {
      DirecTVParts(page);
      var rounds := Repeat(TabCycle, DirecTVRounds);
      var tail := if page.channel.Some? then DirecTVTune(page.channel.value) else [];
      TabRoundsBetweenWaits(DirecTVRounds);
      TabsBetweenWaitsConcat([Wait(65)], rounds);
      TabsBetweenWaitsConcat([Wait(65)] + rounds, tail);
    }
  }

  /**
   * With a channel DirecTV is 26 steps and types the channel at step 19;
   * without one it stops after the Tab rounds, at 19 steps.
   */
  lemma DirecTVTypesChannel(page: PageState)
    requires page.pagesOpen
    ensures page.channel.None? ==> |DirecTVScript(page)| == 19
    ensures page.channel.Some? ==>
              |DirecTVScript(page)| == 26 && DirecTVScript(page)[19] == Type(page.channel.value)
  {
    DirecTVParts(page);
  }

  /** ABC presses Tab exactly 17 times, all of them first, then waits 3 ms and presses Enter once. */
  lemma AbcScriptShape(page: PageState)
    ensures !page.pagesOpen ==> AbcScript(page) == []
    ensures page.pagesOpen ==>
              |AbcScript(page)| == 19 && Count(AbcScript(page), Press(Tab)) == 17 &&
              Count(AbcScript(page), Press(Enter)) == 1 &&
              (forall i :: 0 <= i < 17 ==> AbcScript(page)[i] == Press(Tab)) &&
              AbcScript(page)[17] == Wait(3) && AbcScript(page)[18] == Press(Enter)
  {
    if page.pagesOpen {
      var s := AbcScript(page);
      var tabs := Repeat([Press(Tab)], AbcTabs);
      assert s == tabs + [Wait(3), Press(Enter)];
      RepeatCount([Press(Tab)], AbcTabs, Press(Tab));
      RepeatCount([Press(Tab)], AbcTabs, Press(Enter));
      CountConcat(tabs, [Wait(3), Press(Enter)], Press(Tab));
      CountConcat(tabs, [Wait(3), Press(Enter)], Press(Enter));
      RepeatMembers([Press(Tab)], AbcTabs);
      forall i | 0 <= i < 17
        ensures s[i] == Press(Tab)
      {
        assert s[i] == tabs[i] && tabs[i] in tabs;
      }
    }
  }

  /** The letter at index `i` of "CINFPWA" presses the down arrow `i` times. */
  lemma PufferLetterArrows()
    ensures forall i :: 0 <= i < |PufferLetters| ==> ArrowCount(PufferLetters[i]) == i
  {
    assert PufferLetters == ['C', 'I', 'N', 'F', 'P', 'W', 'A'];
  }

  /** Every down arrow in `s` but a last step is followed by the 500 ms pause. */
  predicate ArrowsPaused(s: seq<Step>)
  {
    forall i :: 0 <= i < |s| - 1 && s[i] == Press(ArrowDown) ==> s[i + 1] == Wait(500)
  }

  lemma ArrowsPausedConcat(a: seq<Step>, b: seq<Step>)
    requires ArrowsPaused(a) && ArrowsPaused(b)
    requires |a| > 0 ==> a[|a| - 1] != Press(ArrowDown)
    ensures ArrowsPaused(a + b)
  {
    forall i | 0 <= i < |a + b| - 1 && (a + b)[i] == Press(ArrowDown)
      ensures (a + b)[i + 1] == Wait(500)
    {
      if i >= |a| {
        assert b[i - |a|] == Press(ArrowDown);
      } else {
        assert a[i] == Press(ArrowDown);
      }
    }
  }

  lemma {:induction false} ArrowRoundsPaused(n: nat)
    ensures ArrowsPaused(Repeat(DownAndPause, n))
    ensures n > 0 ==> Repeat(DownAndPause, n)[2 * n - 1] == Wait(500)
  {
    if n > 0 {
      ArrowRoundsPaused(n - 1);
      ArrowsPausedConcat(DownAndPause, Repeat(DownAndPause, n - 1));
      if n > 1 {
        assert Repeat(DownAndPause, n)[2 * n - 1] == Repeat(DownAndPause, n - 1)[2 * (n - 1) - 1];
      }
    }
  }

  /** The arrow section is the arrow rounds, plus one more arrow for F, P, W and A. */
  lemma ArrowParts(letter: char)
    ensures var n := ArrowCount(letter);
            var m := if n <= 2 then n else n - 1;
            ArrowSteps(letter) == Repeat(DownAndPause, m) + (if n <= 2 then [] else [Press(ArrowDown)])
  {
  }

  /** The arrow section presses the down arrow `ArrowCount` times and pauses 500 ms in between. */
  lemma ArrowStepsCount(letter: char)
    ensures Count(ArrowSteps(letter), Press(ArrowDown)) == ArrowCount(letter)
    ensures forall x :: x in ArrowSteps(letter) ==> x == Press(ArrowDown) || x == Wait(500)
  {
    var n := ArrowCount(letter);
    var m := if n <= 2 then n else n - 1;
    var reps := Repeat(DownAndPause, m);
    var extra := if n <= 2 then [] else [Press(ArrowDown)];
    ArrowParts(letter);
    RepeatCount(DownAndPause, m, Press(ArrowDown));
    assert Count(DownAndPause, Press(ArrowDown)) == 1;
    CountConcat(reps, extra, Press(ArrowDown));
    RepeatMembers(DownAndPause, m);
  }

  /**
   * Every down arrow but a last step is followed by the 500 ms pause; the
   * section ends on a pause exactly for I and N.
   */
  lemma ArrowStepsPaused(letter: char)
    ensures ArrowsPaused(ArrowSteps(letter))
    ensures |ArrowSteps(letter)| > 0 ==>
              (ArrowSteps(letter)[|ArrowSteps(letter)| - 1] == Wait(500) <==> letter == 'I' || letter == 'N')
  {
    var n := ArrowCount(letter);
    var m := if n <= 2 then n else n - 1;
    var reps := Repeat(DownAndPause, m);
    var extra := if n <= 2 then [] else [Press(ArrowDown)];
    ArrowParts(letter);
    ArrowRoundsPaused(m);
    ArrowsPausedConcat(reps, extra);
  }

  /** A Puffer script counts the login steps when redirected, the arrows, Space and the player click when a page is open. */
  lemma PufferCount(letter: char, page: PageState, x: Step)
    ensures var login := if Contains(page.currentUrl, PufferLoginPage) then LoginSteps else [];
            var click := if page.pagesOpen then PlayerFullscreen else [];
            Count(PufferScript(letter, page), x) ==
              Count(login, x) + Count(ArrowSteps(letter), x) + Count([Press(Space)], x) + Count(click, x)
  {
    var login := if Contains(page.currentUrl, PufferLoginPage) then LoginSteps else [];
    var click := if page.pagesOpen then PlayerFullscreen else [];
    var arrows := ArrowSteps(letter);
    CountConcat(login, arrows, x);
    CountConcat(login + arrows, [Press(Space)], x);
    CountConcat(login + arrows + [Press(Space)], click, x);
  }

  /** The login sub-flow presses Tab three times, Space and Enter once, and waits for one navigation. */
  lemma LoginStepCounts()
    ensures Count(LoginSteps, Press(Tab)) == 3
    ensures Count(LoginSteps, AwaitNavigation) == 1 && Count(LoginSteps, Press(Enter)) == 1
    ensures Count(LoginSteps, Press(Space)) == 1
    ensures Press(ArrowDown) !in LoginSteps && Press(KeyF) !in LoginSteps
  {
  }

  /** The player click ends in the single KeyF press and presses nothing else. */
  lemma PlayerFullscreenCounts()
    ensures Count(PlayerFullscreen, Press(KeyF)) == 1
    ensures Press(Space) !in PlayerFullscreen && Press(Enter) !in PlayerFullscreen
    ensures AwaitNavigation !in PlayerFullscreen && Press(ArrowDown) !in PlayerFullscreen
  {
  }

  /** A step that neither the arrows nor the player click hold comes from the login or the Space press. */
  lemma PufferCountOutsideArrows(letter: char, page: PageState, x: Step)
    requires x != Press(ArrowDown) && x != Wait(500) && x !in PlayerFullscreen
    ensures var login := if Contains(page.currentUrl, PufferLoginPage) then LoginSteps else [];
            Count(PufferScript(letter, page), x) == Count(login, x) + (if x == Press(Space) then 1 else 0)
  {
    PufferCount(letter, page, x);
    ArrowStepsCount(letter);
    CountAbsent(ArrowSteps(letter), x);
    CountAbsent(PlayerFullscreen, x);
  }

  /**
   * A Puffer script logs in (one Enter, one navigation wait, one extra
   * Space) exactly when the page was redirected to the login page, and
   * presses Space once more for the player.
   */
  lemma PufferLoginCounts(letter: char, page: PageState)
    ensures var s := PufferScript(letter, page);
            var login := if Contains(page.currentUrl, PufferLoginPage) then 1 else 0;
            Count(s, AwaitNavigation) == login && Count(s, Press(Enter)) == login &&
            Count(s, Press(Space)) == 1 + login
  {
    LoginStepCounts();
    PlayerFullscreenCounts();
    PufferCountOutsideArrows(letter, page, AwaitNavigation);
    PufferCountOutsideArrows(letter, page, Press(Enter));
    PufferCountOutsideArrows(letter, page, Press(Space));
  }

  /** The down arrows of a Puffer script are those of its arrow section. */
  lemma PufferArrowCount(letter: char, page: PageState)
    ensures Count(PufferScript(letter, page), Press(ArrowDown)) == ArrowCount(letter)
  {
    PufferCount(letter, page, Press(ArrowDown));
    ArrowStepsCount(letter);
    LoginStepCounts();
    PlayerFullscreenCounts();
    CountAbsent(LoginSteps, Press(ArrowDown));
    CountAbsent(PlayerFullscreen, Press(ArrowDown));
  }

  /** A step that neither the login nor the arrows hold comes from the Space press or the player click. */
  lemma PufferCountOutsideLogin(letter: char, page: PageState, x: Step)
    requires x != Press(ArrowDown) && x != Wait(500) && x !in LoginSteps
    ensures var click := if page.pagesOpen then PlayerFullscreen else [];
            Count(PufferScript(letter, page), x) == (if x == Press(Space) then 1 else 0) + Count(click, x)
  {
    PufferCount(letter, page, x);
    ArrowStepsCount(letter);
    CountAbsent(ArrowSteps(letter), x);
    CountAbsent(LoginSteps, x);
  }

  /** KeyF is pressed by the player click alone. */
  lemma PufferKeyFCount(letter: char, page: PageState)
    ensures Count(PufferScript(letter, page), Press(KeyF)) == (if page.pagesOpen then 1 else 0)
  {
    assert Press(KeyF) !in LoginSteps;
    PufferCountOutsideLogin(letter, page, Press(KeyF));
    PlayerFullscreenCounts();
  }

  /**
   * A Puffer script presses the down arrow `ArrowCount` times, and presses
   * KeyF once, after the click, only when a page is open.
   */
  lemma PufferPlayerCounts(letter: char, page: PageState)
    ensures var s := PufferScript(letter, page);
            Count(s, Press(ArrowDown)) == ArrowCount(letter) &&
            Count(s, Press(KeyF)) == (if page.pagesOpen then 1 else 0)
  {
    PufferArrowCount(letter, page);
    PufferKeyFCount(letter, page);
  }

  // ---------------------------------------------------------------------
  // The CBS block (ncc-8-0.js:437-483)

  const CbsStreamPage: string := "cbs.com/live-tv/stream/"

  /**
   * After a zero-delay timer: wait 4250, click at half the inner width and
   * 1.05 times half the inner height, wait 3000, press 'f'.
   */
  function CbsScript(urlParam: string, pagesOpen: bool): (r: seq<Step>)
    ensures r != [] <==> Contains(urlParam, CbsStreamPage) && pagesOpen
  {
    if Contains(urlParam, CbsStreamPage) && pagesOpen then
      [Wait(4250), LeftClick(InnerFraction(1, 2), InnerFraction(105, 200)), Wait(3000), Press(LowerF)]
    else []
  }

  // ---------------------------------------------------------------------
  // Dispatch (ncc-8-0.js:580-1523)

  /**
   * The `if / else if` chain over the `url` query parameter, as a table of
   * (pattern, site) rows in the order the tests are made.
   */
  const DispatchOrder: seq<(string, Site)> := [
    ("stream.directv.com", DirecTV),
    ("watch.spectrum.net", Spectrum),
    ("puffer.stanford.edu/player/?ch=C", Puffer('C')),
    ("puffer.stanford.edu/player/?ch=I", Puffer('I')),
    ("puffer.stanford.edu/player/?ch=N", Puffer('N')),
    ("puffer.stanford.edu/player/?ch=F", Puffer('F')),
    ("puffer.stanford.edu/player/?ch=P", Puffer('P')),
    ("puffer.stanford.edu/player/?ch=W", Puffer('W')),
    ("puffer.stanford.edu/player/?ch=A", Puffer('A')),
    ("nbc", Nbc),
    ("wsfa.com", Wsfa),
    ("abc.com", Abc),
    ("peacock", Peacock)
  ]

  /** The first row at or after `i` whose pattern the URL contains, or `|table|`. */
  function FirstMatch(table: seq<(string, Site)>, url: string, i: nat): (k: nat)
    requires i <= |table|
    ensures i <= k <= |table|
    ensures k < |table| ==> Contains(url, table[k].0)
    ensures forall j :: i <= j < k ==> !Contains(url, table[j].0)
    decreases |table| - i
  {
    if i == |table| || Contains(url, table[i].0) then i else FirstMatch(table, url, i + 1)
  }

  /**
   * The chain: at most one site, the one of the first row, in dispatch
   * order, whose pattern the URL contains; none when it contains no pattern.
   */
  function SelectSite(urlParam: string): (r: Option<Site>)
    ensures r.None? <==> forall j :: 0 <= j < |DispatchOrder| ==> !Contains(urlParam, DispatchOrder[j].0)
    ensures r.Some? ==>
              exists k :: 0 <= k < |DispatchOrder| && r.value == DispatchOrder[k].1 &&
                          Contains(urlParam, DispatchOrder[k].0) &&
                          forall j :: 0 <= j < k ==> !Contains(urlParam, DispatchOrder[j].0)
  {
    var k := FirstMatch(DispatchOrder, urlParam, 0);
    if k < |DispatchOrder| then Some(DispatchOrder[k].1) else None
  }

  /** The row a URL selects is the first whose pattern it contains. */
  lemma SelectSiteAt(urlParam: string, k: nat)
    requires k < |DispatchOrder| && Contains(urlParam, DispatchOrder[k].0)
    requires forall j :: 0 <= j < k ==> !Contains(urlParam, DispatchOrder[j].0)
    ensures SelectSite(urlParam) == Some(DispatchOrder[k].1)
  {
    assert FirstMatch(DispatchOrder, urlParam, 0) == k;
  }

  /** The Puffer rows come in the order of "CINFPWA", so row `k` presses the down arrow `k - 2` times. */
  lemma PufferRowsInLetterOrder()
    ensures forall k :: 2 <= k < 9 ==> DispatchOrder[k].1 == Puffer(PufferLetters[k - 2])
    ensures forall k :: 2 <= k < 9 ==> ArrowCount(DispatchOrder[k].1.letter) == k - 2
    ensures forall k :: 0 <= k < |DispatchOrder| && DispatchOrder[k].1.Puffer? ==> 2 <= k < 9
  {
    assert PufferLetters == ['C', 'I', 'N', 'F', 'P', 'W', 'A'];
  }

  /**
   * The bare "nbc" test shadows the rows after it: a URL that contains
   * "nbc" always gets a script, and never the WSFA, ABC or Peacock one.
   */
  lemma NbcShadowsLaterRows(urlParam: string)
    requires Contains(urlParam, "nbc")
    ensures SelectSite(urlParam).Some?
    ensures SelectSite(urlParam) != Some(Wsfa) && SelectSite(urlParam) != Some(Abc)
    ensures SelectSite(urlParam) != Some(Peacock)
  {
    assert DispatchOrder[9].0 == "nbc";
    var k := FirstMatch(DispatchOrder, urlParam, 0);
    assert k <= 9;
  }
}
