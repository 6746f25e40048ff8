# Chrome capture streaming and the Peacock Sports guide, in Dafny

This project models two programs of one repository and proves properties of
the models.

**ncc-8-0.js** is an Express server that turns a web page into a video stream.
A request to `/stream/:name?url=...` is handled in these steps:
- It takes the `ch=` channel out of the `url` query parameter.
- It normalises that channel against a whitelist of CBS affiliates and looks up
  the page's geolocation.
- It opens a page in a shared Chrome browser, which is launched lazily and
  relaunched after it closes.
- It starts an encoded stream, with the bitrate chosen from the URL.
- It navigates to the target page, or to an NBC alias.
- It waits for the video, resizes the window to the 1920x1080 viewport plus the
  browser chrome, and minimises it on macOS.
- Finally it runs at most one per-site automation script, a fixed sequence of
  waits, key presses, clicks and fullscreen requests. A CBS click block is
  scheduled independently of that choice.

**peacock_07_1.py** scrapes Peacock's sports event cards and writes an XMLTV
guide. It works in three stages:
- It dates each card ("today", "tomorrow" or "Month day", plus an "h:mm AM/PM"
  time). The start is clamped up to now, the end is the scheduled start plus
  4.5 hours, and events more than seven days ahead are dropped.
- It places the events, in order of start, on seven channels by greedy
  first-fit over half-open intervals.
- It walks each channel from now to 04:00 tomorrow. Every gap is filled with
  "Signed Off" programmes, and the real programmes are numbered across channels
  in a text listing.

The files:
- `channel_query.dfy`, `geolocation.dfy`, `stream_settings.dfy`: the
  per-request decisions.
- `automation.dfy`: the per-site scripts as `seq<Step>` data, and the dispatch
  chain as an ordered table.
- `stream_handler.dfy`: the whole handler, as the trace of effects it produces
  under a given environment.
- `browser_pool.dfy`: the `getCurrentBrowser` singleton, as classes with mutable
  state.
- `calendar.dfy`: the proleptic Gregorian calendar and `strftime`.
- `epg_events.dfy`: event dating and the card loop.
- `epg_guide.dfy`: channel creation, placement, gap filling, the listing, and a
  `Guide` class holding the `tv`, `channels` and text-file state that the
  script's loops mutate.

How time is represented:
- Times are whole minutes since 0001-01-01 00:00, and `now` is a parameter.
- Coordinates are integers in units of 1e-4 degree.
- Click positions that are fractions of the inner window size are kept as
  fractions.

Two behaviours of the code worth noting:
- The browser pool has no single-flight sharing of an in-flight launch. Two
  concurrent calls may both launch a browser.
- The 404 "channel not found" branch does not return. It is unreachable anyway,
  because every normalised channel is in the table.

## Model

| member | source | states |
|---|---|---|
| ChannelQuery.ChannelOf | ncc-8-0.js:247-249 | No channel (null) exactly when no `?ch=`/`&ch=` in the URL is followed by a character other than `&` (so `x?ch=` and `x?ch=&y` give null); otherwise the channel is non-empty and holds no `&` |
| ChannelQuery.ChannelOfFirstMatch | ncc-8-0.js:247-249 | The channel is read at the first `?ch=`/`&ch=` followed by a character other than `&`, and runs to the next `&` or the end of the URL |
| ChannelQuery.RunEndAtEnd | ncc-8-0.js:248 | With no `&` after `ch=`, the value runs to the end of the URL |
| ChannelQuery.RunEndStops | ncc-8-0.js:248 | The value stops at the first `&` after `ch=` |
| ChannelQuery.ChannelOfSimpleQuery | ncc-8-0.js:247-249 | `prefix?ch=v` and `prefix?ch=v&rest` both give channel `v` |
| ChannelQuery.ChannelOfSkipsEmptyValue | ncc-8-0.js:248 | An empty first value does not match `[^&]+`: `prefix?ch=&ch=v` gives `v` |
| Geolocation.GpsChannel | ncc-8-0.js:252-289 | A listed name is kept unchanged; anything else, null included, becomes "default"; the result is always listed and always a key of the coordinate table |
| Geolocation.WhitelistDistinct | ncc-8-0.js:254-286 | The whitelist holds 33 pairwise distinct names |
| Geolocation.WhitelistMatchesTable | ncc-8-0.js:332-367 | A name is whitelisted exactly when it is a key of `channelCoordinates` |
| Geolocation.DefaultIsBirmingham | ncc-8-0.js:364-365 | "default" and "CBSBirmingham" share (33.518, -86.810), and no other row has those coordinates |
| Geolocation.ResolveGeolocation | ncc-8-0.js:370-400 | A located decision carries the table row of the normalised channel |
| Geolocation.NotFoundUnreachable | ncc-8-0.js:396-400 | Every URL is located, so the 404 branch never runs; a URL without a channel gets the default coordinates |
| Geolocation.UnlistedChannelIsDefault | ncc-8-0.js:286-288 | A channel that is not whitelisted is placed at the default coordinates |
| Geolocation.WhitelistedChannelIsLocated | ncc-8-0.js:370-371 | A whitelisted channel is placed at its own row |
| GeolocationExamples.ExampleChannel | ncc-8-0.js:247-249 | A URL ending in `?ch=v` yields `v` |
| GeolocationExamples.MiamiChannel | ncc-8-0.js:247-249 | `...?ch=CBSMiami` yields "CBSMiami" |
| GeolocationExamples.MiamiRow | ncc-8-0.js:333 | CBSMiami is whitelisted at (25.958, -80.239) |
| GeolocationExamples.MiamiExample | ncc-8-0.js:370-371 | A CBSMiami URL is located at (25.958, -80.239) |
| GeolocationExamples.SkipsEmptyValue | ncc-8-0.js:247-249 | `...?ch=&ch=UnknownXYZ` passes over the empty value and yields "UnknownXYZ" |
| GeolocationExamples.UnknownIsUnlisted | ncc-8-0.js:252-289 | "UnknownXYZ" is not whitelisted |
| GeolocationExamples.UnknownExample | ncc-8-0.js:286-288 | An unknown channel is located at the default coordinates |
| StreamSettings.NbcLive | ncc-8-0.js:302-325 | Every NBC alias URL starts with `https://www.nbc.com/live?brand=` and so contains "nbc.com" |
| StreamSettings.TargetUrl | ncc-8-0.js:298-329 | Without a route name the target is the `url` parameter; with one it is defined exactly when the name is an alias, and it is then the alias's URL |
| StreamSettings.AliasesAreNbcLivePages | ncc-8-0.js:300-328 | Every alias except weatherscan and windy is an nbc.com live page; those two do not contain "nbc" |
| StreamSettings.WaitForVideo | ncc-8-0.js:373-378 | waitForVideo is false exactly when the parameter is 'false' or the name is weatherscan or windy |
| StreamSettings.MinimizeWindow | ncc-8-0.js:379-380 | minimizeWindow is true exactly on darwin while waiting for the video |
| StreamSettings.WeatherPagesSkipWaiting | ncc-8-0.js:373-380 | weatherscan and windy never wait and are never minimised |
| StreamSettings.EncoderFor | ncc-8-0.js:405-431 | Audio is always 192000 and the frame rate 30; video is 15400000 exactly when the URL contains "nbc.com", "cbs.com", "peacocktv.com" or "puffer.standford.edu" (sic), and 5940000 otherwise |
| StreamSettings.PufferIsNotHighRateHost | ncc-8-0.js:410-421 | A correctly spelled Puffer URL contains none of the three broadcaster hosts |
| StreamSettings.PufferIsNotMisspelledPuffer | ncc-8-0.js:422 | A correctly spelled Puffer URL does not contain the misspelled "puffer.standford.edu" |
| StreamSettings.CorrectPufferSpellingGetsDefaultRate | ncc-8-0.js:422-430 | So a puffer.stanford.edu URL gets the default 5940000 |
| StreamSettings.NbcAliasesGetHighRate | ncc-8-0.js:410-413 | An NBC alias URL, given as the `url` parameter, gets the high rate |
| StreamSettings.WindowBounds | ncc-8-0.js:548-562 | The window is the 1920x1080 viewport plus the chrome's width and height deltas |
| StreamHandler.PageFor | ncc-8-0.js:247-249 | No contract of its own: what a script reads, with the channel always the `ch=` value of `url`; see DirecTVTypesUrlChannel |
| StreamHandler.NavigationEffects | ncc-8-0.js:522-573 | No contract of its own: the navigation `try` block, ended by the first call that throws; see NavigationMinimize, NavigationResizes, NavigatesToTarget |
| StreamHandler.ScriptEffects | ncc-8-0.js:580-1523 | No contract of its own: the script the if/else-if chain selects, or none; see ScriptRunsAfterStreamStarts, CbsAndScriptDoNotResize, DirecTVTypesUrlChannel |
| StreamHandler.CbsEffects | ncc-8-0.js:437-483 | No contract of its own: the CBS block, scheduled apart from the chain; see CbsBlockBesideDispatch, CbsAndScriptDoNotResize |
| StreamHandler.Handle | ncc-8-0.js:244-1524 | No contract of its own: the `/stream/:name?` handler as its sequence of effects; see MissingUrlAnswers500, GeolocationFirst, NavigatesToTarget, StreamFailureStops, EncoderFollowsUrlParameter, ScriptRunsAfterStreamStarts, CbsBlockBesideDispatch, MinimizeFollowsResize, ResizeKeepsViewport, AtMostOneResponse |
| StreamHandler.Decided | ncc-8-0.js:369-400 | No contract of its own: the handler once the geolocation is decided, answering 500 when no page opens; see DecidedOpensFirst, GeolocationFirst |
| StreamHandler.AfterOpen | ncc-8-0.js:437-1523 | No contract of its own: the CBS block, then the stream or its failure; see StreamFailureStops, CbsBlockBesideDispatch |
| StreamHandler.Started | ncc-8-0.js:486-1523 | No contract of its own: the stream with the encoder from `url`, then navigation and the selected script; see EncoderFollowsUrlParameter, ScriptRunsAfterStreamStarts |
| StreamHandler.MissingUrlAnswers500 | ncc-8-0.js:247-248 | A request without `url` answers 500 and does nothing else |
| StreamHandler.DecidedOpensFirst | ncc-8-0.js:382-395 | Whatever the geolocation decision, the page is opened first and at most once |
| StreamHandler.GeolocationFirst | ncc-8-0.js:370-395 | The page with its geolocation is opened before any stream, navigation or script, and at most once; it carries `channelCoordinates[gpsChannel]`, the table row of the normalised `ch=` value of `url` |
| StreamHandler.NavigatesToTarget | ncc-8-0.js:522-523 | Every navigation in the trace goes to the request's target `u`: the `url` parameter, or the alias url of the route name |
| StreamHandler.StreamFailureStops | ncc-8-0.js:516-521 | A stream that fails to start ends the trace with 500 and the page closed; no navigation, no script, no stream |
| StreamHandler.EncoderFollowsUrlParameter | ncc-8-0.js:488-499 | The stream is encoded with the settings chosen from `url`, even when the route's alias navigates elsewhere |
| StreamHandler.NavigationMinimize | ncc-8-0.js:563-570 | In the navigation block, a minimise comes straight after the resize and only when minimizeWindow is set; the block starts with the navigation |
| StreamHandler.MinimizeFollowsResize | ncc-8-0.js:563-570 | Every minimise in the whole trace comes straight after a window resize |
| StreamHandler.MinimizeOnlyOnMacWhileWaiting | ncc-8-0.js:379-380 | The trace minimises only on darwin while waiting for the video |
| StreamHandler.NavigationResizes | ncc-8-0.js:548-562 | In the navigation block, every resize is the viewport plus the chrome, and happens only after a navigation with window control |
| StreamHandler.CbsAndScriptDoNotResize | ncc-8-0.js:437-483 | The CBS block and the site scripts schedule only themselves; they never resize |
| StreamHandler.ResizeKeepsViewport | ncc-8-0.js:548-562 | Every resize in the trace is the viewport plus the chrome, and needs navigation and window control |
| StreamHandler.ScriptRunsAfterStreamStarts | ncc-8-0.js:569-583 | Once the stream has started, the selected site's script is the last effect, whether or not navigation succeeded |
| StreamHandler.CbsBlockBesideDispatch | ncc-8-0.js:437-583 | The CBS block is scheduled, straight after the page opens, exactly when the url contains "cbs.com/live-tv/stream/", whatever site the chain selects; once the stream starts, the selected site's script is still the last effect |
| StreamHandler.DirecTVTypesUrlChannel | ncc-8-0.js:585-597 | With a page open and the stream started, the DirecTV script types the `ch=` value extracted from `url` at lines 247-249 at step 19, or stops after the Tab rounds when there is none |
| StreamHandler.AtMostOneResponse | ncc-8-0.js:383-521 | A trace holds at most one HTTP error response and closes the page at most once |
| Automation.Repeat | ncc-8-0.js:591-595 | n rounds of a block are n times its length |
| Automation.RepeatCount | ncc-8-0.js:591-595 | Each step occurs n times as often in n rounds as in the block |
| Automation.RepeatMembers | ncc-8-0.js:591-595 | The rounds hold nothing but the block's steps |
| Automation.RunRepeated | ncc-8-0.js:591-595 | The counting loop produces exactly n rounds of the block |
| Automation.DirecTVScript | ncc-8-0.js:580-627 | No contract of its own: DirecTV's steps; see DirecTVParts, DirecTVTabCount, DirecTVTabsBetweenWaits, DirecTVTypesChannel |
| Automation.AbcScript | ncc-8-0.js:1460-1492 | No contract of its own: ABC's steps; see AbcScriptShape |
| Automation.PufferScript | ncc-8-0.js:651-1409 | No contract of its own: the seven Puffer branches as one script parameterised by the letter; see PufferLetterArrows, PufferCount, PufferLoginCounts, PufferPlayerCounts |
| Automation.ScriptFor | ncc-8-0.js:580-1523 | No contract of its own: the steps of each selectable site; see FullscreenSiteScript, KeepPlayingSiteScript, DirecTVTypesChannel, AbcScriptShape, PufferCount |
| Automation.DirecTVParts | ncc-8-0.js:585-624 | With a page open, DirecTV is wait 65, six rounds, then the tuning steps when there is a channel |
| Automation.DirecTVTabCount | ncc-8-0.js:585-595 | With no page, DirecTV only waits 65; with one, it presses Tab exactly 6 times |
| Automation.DirecTVTabsBetweenWaits | ncc-8-0.js:591-595 | Every DirecTV Tab has a 700 ms wait just before it and a 500 ms wait just after it |
| Automation.DirecTVTypesChannel | ncc-8-0.js:596-624 | With a channel, the script is 26 steps and types the channel at step 19; without one it stops at 19 steps |
| Automation.AbcScriptShape | ncc-8-0.js:1465-1489 | ABC presses Tab exactly 17 times, all first, then waits 3 and presses Enter once; nothing without a page |
| Automation.FullscreenSiteScript | ncc-8-0.js:628-649 | Spectrum and WSFA wait 1030 ms, then request fullscreen, whatever the page state |
| Automation.KeepPlayingSiteScript | ncc-8-0.js:1410-1434 | NBC and Peacock press KeyF, then ArrowRight every 3.5 hours (12600000 ms), whatever the page state |
| Automation.PufferLetterArrows | ncc-8-0.js:651-1408 | The Puffer letters C, I, N, F, P, W, A press the down arrow 0 to 6 times, in that order |
| Automation.ArrowStepsCount | ncc-8-0.js:695-737 | The arrow phase presses ArrowDown exactly ArrowCount times and holds nothing but arrows and 500 ms pauses |
| Automation.ArrowStepsPaused | ncc-8-0.js:695-737 | Every arrow but the last is followed by a 500 ms pause |
| Automation.LoginStepCounts | ncc-8-0.js:662-686 | The login sub-flow presses Tab 3 times, Space and Enter once, awaits one navigation, and presses no arrow or KeyF |
| Automation.PlayerFullscreenCounts | ncc-8-0.js:695-737 | The player click ends in a single KeyF and presses nothing else |
| Automation.PufferCount | ncc-8-0.js:651-737 | A step's count in a Puffer script is its count in the login (if redirected), the arrows, the Space and the click (if a page is open) |
| Automation.PufferLoginCounts | ncc-8-0.js:656-690 | The login sub-flow (one Enter, one navigation) runs once, exactly when the page was redirected to the login page |
| Automation.PufferPlayerCounts | ncc-8-0.js:695-737 | A Puffer script presses the down arrow ArrowCount times, and KeyF once, only when a page is open |
| Automation.CbsScript | ncc-8-0.js:436-483 | The CBS click block runs exactly when the URL contains "cbs.com/live-tv/stream/" and a page is open |
| Automation.FirstMatch | ncc-8-0.js:580-1523 | The first row at or after i whose pattern the URL contains, with no matching row before it |
| Automation.SelectSite | ncc-8-0.js:580-1523 | No script exactly when no pattern matches; otherwise the site of the first matching row in chain order |
| Automation.SelectSiteAt | ncc-8-0.js:580-1523 | A URL selects the first row whose pattern it contains |
| Automation.PufferRowsInLetterOrder | ncc-8-0.js:651-1408 | The Puffer rows are rows 2 to 8, in letter order, and row k presses the arrow k-2 times |
| Automation.NbcShadowsLaterRows | ncc-8-0.js:1410 | A URL containing "nbc" always gets a script, never the WSFA, ABC or Peacock one |
| BrowserPool.Page.Close | ncc-8-0.js:98 | Closing a page closes it |
| BrowserPool.Browser.Launch | ncc-8-0.js:29-93 | A launched browser is connected, with its fresh, open initial pages |
| BrowserPool.Browser.CloseAllPages | ncc-8-0.js:97-99 | Every page of the new browser is closed |
| BrowserPool.Browser.Disconnect | ncc-8-0.js:28 | A browser that loses its connection keeps its pages |
| BrowserPool.Pool.constructor | ncc-8-0.js:25 | The handle starts unset |
| BrowserPool.Pool.GetCurrentBrowser | ncc-8-0.js:27-101 | A set and connected handle is returned unchanged; otherwise a new browser is launched, its initial pages are closed, and it becomes the handle; the result is always connected |
| BrowserPool.Pool.OnClose | ncc-8-0.js:94-96 | A close event clears the handle, whichever browser fired it |
| BrowserPool.ReuseThenRelaunch | ncc-8-0.js:27-101 | A second call reuses the browser; after a close the next call launches a new one |
| BrowserPool.LateCloseDropsReplacement | ncc-8-0.js:94-96 | A late close event from a replaced browser clears the handle of its replacement |
| Text.Lower | peacock_07_1.py:86-88 | `str.lower()`: same length, each ASCII capital replaced by its small letter |
| Calendar.DaysInMonth | peacock_07_1.py:94-95 | Months have 28 to 31 days, and February has 29 exactly in leap years |
| Calendar.DateOfDayNumber | peacock_07_1.py:111 | Numbering a valid date and reading the number back gives the date again |
| Calendar.DayNumberInjective | peacock_07_1.py:111 | Different dates have different day numbers |
| Calendar.AtParts | peacock_07_1.py:111 | An instant is its date at its hour and minute |
| Calendar.Timestamp | peacock_07_1.py:173-174 | `strftime("%Y%m%d%H%M%S")` is 14 digits |
| Calendar.TimestampFields | peacock_07_1.py:173-174 | The 14 digits read back as year, month, day, hour, minute and "00" |
| Calendar.TimestampRoundTrip | peacock_07_1.py:173-174 | Reading a timestamp back gives the instant again |
| Calendar.TimestampInjective | peacock_07_1.py:181-182 | Different instants have different timestamps |
| Calendar.ClockText | peacock_07_1.py:189 | `strftime('%Y-%m-%d %H:%M')` is 16 characters with its separators in place, and its digits followed by "00" are the instant's timestamp |
| Calendar.ClockTextInjective | peacock_07_1.py:189 | Different instants give different listing texts |
| EpgEvents.StrptimeMonthDay | peacock_07_1.py:94 | `strptime(s, "%B %d")` gives a month and a day valid in 1900 (no 29 February) |
| EpgEvents.MonthDayRoundTrip | peacock_07_1.py:94 | "Month d" for any day valid in 1900 reads back as that month and day |
| EpgEvents.FebruaryTwentyNinthIsRefused | peacock_07_1.py:94-98 | "February 29" is refused, because strptime's default year 1900 is not a leap year |
| EpgEvents.NoCapitalNoMonth | peacock_07_1.py:91-92 | The month gate is case-sensitive: a text without capitals names no month |
| EpgEvents.EventDay | peacock_07_1.py:84-100 | "today" and "tomorrow", in any case, are today and today+1; a month-named text that strptime reads is in the current year; anything else is today |
| EpgEvents.DayInCurrentYear | peacock_07_1.py:95 | The day is the read month and day in the year of now |
| EpgEvents.MonthDayInCurrentYear | peacock_07_1.py:91-96 | A month-named, readable text gives that month and day in now's year |
| EpgEvents.LowerCaseMonthIsToday | peacock_07_1.py:91-100 | A text without capitals, other than today/tomorrow, falls back to today |
| EpgEvents.MonthLoop | peacock_07_1.py:91-98 | The month loop finds a date exactly when some month name is in the text and strptime reads it |
| EpgEvents.ParseEventDay | peacock_07_1.py:84-100 | The date parsing, step by step, gives the day EventDay states |
| EpgEvents.To24 | peacock_07_1.py:106 | `%I %p`: a 24-hour hour that is PM exactly from 12 on and agrees with the 12-hour one modulo 12 |
| EpgEvents.StrptimeClock | peacock_07_1.py:106 | `strptime(s, "%I:%M %p")` gives a valid hour and minute |
| EpgEvents.MinuteAndMeridiemRoundTrip | peacock_07_1.py:106 | "mm AM"/"mm PM" reads back as that minute and meridiem |
| EpgEvents.ClockRoundTrip | peacock_07_1.py:106 | "h:mm AM/PM" reads back as the corresponding 24-hour clock |
| EpgEvents.ClockOf | peacock_07_1.py:102-108 | The event time is always a valid hour and minute |
| EpgEvents.ClockGateIsImplied | peacock_07_1.py:104-108 | The `":"` and am/pm gate never rejects a time strptime reads |
| EpgEvents.ScheduledStart | peacock_07_1.py:110-111 | A card's scheduled start is a representable instant |
| EpgEvents.EventOf | peacock_07_1.py:110-124 | An event exists exactly when the dates are representable and the start is at most 7 days after now; its start is the scheduled start clamped up to now, its end the scheduled start plus 270 minutes |
| EpgEvents.EndBeforeClampedStart | peacock_07_1.py:111-117 | An event that began over 4.5 hours ago is kept, starting now and ending before its start |
| EpgEvents.EventsOf | peacock_07_1.py:68-127 | The loop keeps at most one event per card |
| EpgEvents.EventsInWindow | peacock_07_1.py:114-121 | Every kept event starts between now and now + 7 days, both included |
| EpgEvents.EventsAreRepresentable | peacock_07_1.py:110-127 | Every kept event's start and end are representable instants |
| EpgEvents.BuildEvents | peacock_07_1.py:62-127 | The card loop appends exactly the events EventsOf states, in card order |
| EpgGuide.ChannelIdsDistinct | peacock_07_1.py:137-138 | Different indices give different channel ids |
| EpgGuide.FreshChannels | peacock_07_1.py:144-145 | n channels are created |
| EpgGuide.FreshChannelsGrow | peacock_07_1.py:144-145 | Channel n+1 is appended with id `peacocksports{n+1}`, display name `Peacock Sports {n+1}` and an empty schedule |
| EpgGuide.FreshChannelsDistinct | peacock_07_1.py:137-145 | Channel k has id `peacocksports{k+1}` and an empty schedule, and the ids are distinct |
| EpgGuide.Guide.constructor | peacock_07_1.py:134-135 | The guide starts with an empty tree, no channels and no text |
| EpgGuide.Guide.AddChannel | peacock_07_1.py:137-142 | `add_channel` appends one channel element and one empty channel, and returns that channel |
| EpgGuide.Guide.AddChannels | peacock_07_1.py:144-145 | The loop adds the 7 channels in index order |
| EpgGuide.InsertByStart | peacock_07_1.py:148 | Inserting adds exactly the one event |
| EpgGuide.SortByStart | peacock_07_1.py:148 | Sorting is a permutation |
| EpgGuide.SortIsSorted | peacock_07_1.py:148 | Sorting orders the events by start |
| EpgGuide.SortIsStable | peacock_07_1.py:148 | Events with the same start keep their order |
| EpgGuide.SortOfSortedIsIdentity | peacock_07_1.py:169 | Sorting an already sorted schedule changes nothing |
| EpgGuide.FirstFit | peacock_07_1.py:150-157 | No contract of its own: the search from the first channel; see FirstFitFrom, PlacedChangesFirstFreeOnly, PlacedIffSomeFree |
| EpgGuide.FirstFitFrom | peacock_07_1.py:150-157 | The chosen channel is free, every earlier one conflicts, and there is none exactly when all conflict |
| EpgGuide.Placed | peacock_07_1.py:150-159 | Placing keeps the channels and their ids |
| EpgGuide.PlacedChangesFirstFreeOnly | peacock_07_1.py:150-157 | Only the first free channel changes, and it gets the event appended |
| EpgGuide.PlacedIffSomeFree | peacock_07_1.py:149-159 | An event is placed exactly when some channel is free for it; otherwise nothing changes |
| EpgGuide.PlacedKeepsNoOverlap | peacock_07_1.py:151-155 | Placing keeps every schedule free of overlaps, touching allowed |
| EpgGuide.PlacedAddsOnce | peacock_07_1.py:155-159 | Placing adds the event to one channel, or to none when all conflict |
| EpgGuide.PlacedBounds | peacock_07_1.py:155-159 | Placing loses no event and adds at most the offered one |
| EpgGuide.PlaceAll | peacock_07_1.py:148-159 | The placement loop keeps the channels and their ids |
| EpgGuide.PlaceAllAddsOffered | peacock_07_1.py:148-159 | The placed events are the offered ones, each at most once, without loss |
| EpgGuide.PlaceAllNoOverlap | peacock_07_1.py:148-157 | After placement no two events on a channel overlap |
| EpgGuide.PlaceAllSorted | peacock_07_1.py:148-155 | Events offered in start order leave every schedule sorted |
| EpgGuide.PlacedEventsOffered | peacock_07_1.py:148-159 | Every scheduled event is one of the offered events |
| EpgGuide.PlacedChannelsWellFormed | peacock_07_1.py:147-159 | Placing the sorted events on fresh channels gives sorted, overlap-free schedules of representable events |
| EpgGuide.Guide.Place | peacock_07_1.py:149-159 | One event is placed by first-fit; the result says whether some channel was free |
| EpgGuide.Guide.PlaceEvents | peacock_07_1.py:148-159 | The loop places the events in stable start order |
| EpgGuide.EndOfDay | peacock_07_1.py:167-168 | No contract of its own: 04:00 of the day after `now`; see EndOfDayIsTomorrowAtFour |
| EpgGuide.Timeline | peacock_07_1.py:169-201 | No contract of its own: filler and programmes from the pointer to the end of the guide; see TimelineCovers, TimelineShowsSchedule |
| EpgGuide.Gap | peacock_07_1.py:171-201 | No contract of its own: one "Signed Off" entry exactly when the pointer is before the limit; see GapShowsNothing, TimelineCovers |
| EpgGuide.EndOfDayIsTomorrowAtFour | peacock_07_1.py:167-168 | The guide ends at 04:00 on the day after now, after now |
| EpgGuide.TimelineCovers | peacock_07_1.py:166-201 | The timeline has no gap from now to the end of the guide; each Signed-Off entry is non-empty and runs exactly to the next programme or to the end |
| EpgGuide.TimelineShowsSchedule | peacock_07_1.py:169-192 | The real programmes of the timeline are the schedule, in order |
| EpgGuide.GapShowsNothing | peacock_07_1.py:171-177 | Filler holds no real programme |
| EpgGuide.Render | peacock_07_1.py:172-185 | A programme element spans its entry, and its title is the event's or "Signed Off" |
| EpgGuide.Programmes | peacock_07_1.py:166-201 | No contract of its own: every channel's rendered timeline in channel order; see ProgrammesTimed, Render |
| EpgGuide.ProgrammesTimed | peacock_07_1.py:173-198 | Every programme element's start and stop can be formatted with strftime |
| EpgGuide.ChannelListing | peacock_07_1.py:187-190 | One record per programme of the channel; see ChannelListingRecords, ChannelListingEvents |
| EpgGuide.Listing | peacock_07_1.py:165-190 | No contract of its own: every channel's records numbered on from 1; see ListingLength, ListingNumbered, ListingByChannel, ListingTimed |
| EpgGuide.ChannelListingRecords | peacock_07_1.py:187-190 | A channel's k-th record is its k-th programme, numbered on from the counter |
| EpgGuide.ChannelListingEvents | peacock_07_1.py:169-190 | Every listed programme is from the channel's schedule |
| EpgGuide.ListingLength | peacock_07_1.py:164-190 | There is one record for every placed event |
| EpgGuide.ListingNumbered | peacock_07_1.py:165-190 | Records are numbered 1, 2, 3, ... across channels |
| EpgGuide.ListingByChannel | peacock_07_1.py:166-190 | Records carry channel numbers 1 to 7, in channel order |
| EpgGuide.ListingTimed | peacock_07_1.py:187-189 | Every record's times can be formatted |
| EpgGuide.FirstLine | peacock_07_1.py:188 | "Event ", the number's digits (which read back as the number), then ": ", the title and " (Channel n)" with the channel's digits, ending in a newline |
| EpgGuide.TimesLine | peacock_07_1.py:189 | 37 characters: the start's and the end's `%Y-%m-%d %H:%M` texts joined by " - ", then a blank line |
| EpgGuide.ListedText | peacock_07_1.py:188-189 | A record's text is its first line followed by its 37-character times line; see ListedTextDetermines |
| EpgGuide.ListedTextDetermines | peacock_07_1.py:186-189 | The written text determines the whole record: equal texts mean equal number, title, start, end and channel |
| EpgGuide.FirstLineDetermines | peacock_07_1.py:188 | The first line determines the number, the title and the channel: the digit runs are delimited by ':' and by the space of " (Channel " |
| EpgGuide.Guide.EmitProgramme | peacock_07_1.py:170-192 | One programme: filler if it starts after the pointer, its element, and its record |
| EpgGuide.Guide.EmitClosing | peacock_07_1.py:194-201 | The closing filler up to the end of the guide, when the pointer is before it |
| EpgGuide.Guide.EmitChannel | peacock_07_1.py:166-201 | One channel's elements are its timeline; its records are numbered on from the counter, which advances by the number of programmes |
| EpgGuide.Guide.Emit | peacock_07_1.py:164-201 | The output loop appends every channel's timeline and its numbered listing, changing no schedule |
| EpgGuide.BuildGuide | peacock_07_1.py:134-201 | The whole script: schedules from first-fit over the sorted events, sorted and overlap-free; the tree holds the 7 channels and then every timeline; the text is the numbered listing |

## Left out

- Driving the browser is not modelled: keyboard, mouse, `page.goto`, `waitForSelector`, `getStream` and the CDP window calls. Whether the page opens, the stream starts, the navigation and video waits succeed and the window can be controlled is an `Environment` value; the model records what is asked for.
- A site script is recorded in full as the code requests it. In the code a step that throws (a key press, a click, Puffer's `waitForNavigation` timing out) ends the rest of its script. Only DirecTV typing a null channel is modelled that way. The DirecTV, CBS and ABC scripts run inside a `setTimeout(async …)` callback (ncc-8-0.js:442, 585, 1465) whose body has no `try`, so the surrounding try/catch never sees such an error: for example `keyboard.type(null)` at ncc-8-0.js:597 becomes an unhandled promise rejection, which under Node's default mode since version 15 terminates the server process. The code registers no `unhandledRejection` handler. The model does not capture that crash.
- Executable discovery, extension copying, launch options and Chrome flags (ncc-8-0.js:105-163 and 29-91) are not modelled: they are filesystem and platform probing.
- The other Express routes, HTML pages, debug routes and logging are not modelled.
- Stream piping and the `res.on('close')` teardown are event-driven I/O; a started stream is one `StartStream` effect.
- `setTimeout`, `setInterval` and concurrency are not modelled. Waits and the keep-alive interval are data. Concurrent requests sharing the browser and the window are not modelled.
- Floating point is not modelled. Coordinates are scaled to integers of 1e-4 degree. The click fractions 0.31, 0.79, 1/2 and 1.05/2 are kept as num/den. 4.5 hours is 270 minutes.
- The `minFrameRate: 'fr'` string and the unused `pageCounter` are not modelled; the frame rate recorded is the `fr` variable's 30.
- StreamHandler.Decided: the 404 branch is modelled as answering 404 and stopping, although the code carries on after it; the branch is unreachable.
- BrowserPool.Pool.GetCurrentBrowser: the asynchronous closing of the initial pages is modelled as done before the call returns, and a launch that throws is not modelled (the handler's 500 for it is the `pageOpens` flag of the environment).
- StreamSettings.TargetUrl: alias names are the table's own keys; JavaScript's inherited object properties (such as `constructor`) are not modelled as aliases.
- The regex scraping of the card HTML (peacock_07_1.py:72-82) is not modelled; a card is given as its sport, title and time strings.
- Selenium driver setup, scrolling and quitting, XML serialisation and the file writes are not modelled. `tv` holds element values, and the text file holds one `Listed` record per programme; `ListedText` renders the record as the two lines the script writes.
- Text.Lower: only the ASCII capitals are lowered; `str.lower()` also lowers other scripts, which cannot turn a text into "today", "tomorrow", "am" or "pm".
- EpgEvents.EventDay: one `now` stands for every `datetime.now()` and `date.today()` call of a run.
- EpgEvents.StrptimeClock: `%d`, `%I` and `%M` accept ASCII digits only, not other Unicode decimal digits.
- Calendar.Timestamp: years below 1000 are zero-padded to four digits, where `strftime` on glibc writes them without padding.
- EpgEvents.EventOf: a start or end past 9999-12-31 is modelled as the card being dropped, as the script's bare `except` does for the `OverflowError`.
- EpgGuide.ProgrammesTimed: requires that 04:00 tomorrow is still representable; on 9999-12-31 the script itself raises.
