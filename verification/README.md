# The display package and the digest codec, verified

This project models the display package, which turns an instance's screen document into a rotation of slides on a wall
screen, and the codec the plugin SDK spells tarball digests with. It proves, for every input and every run, what the code
and its documentation promise of them, and where that is not quite so, exactly when it is.

Each module is one source file or one part of it.

| module | models |
|---|---|
| `FetchLoop` | the polling protocol: one request at a time, a conditional-request cache, revocation, pause, back-off, the 24 hours |
| `Renderer` | the rotation with its slide and minute timers, document replacement, and the ledger of picture URLs |
| `Fit` | pages of items, shrinking, pages of text, over a slide changed in place and restored |
| `Rotation`, `BuiltSlides`, `Busy`, `Sorting` | the builder of a rotation, what its slides say, its merged busy intervals, and the sort it uses |
| `Json`, `Contract`, `Parse` | JSON values, the contract's types and limits, and the parser |
| `Texts`, `Instants`, `ZonedTime` | the shortener, instants as text, and the days of a time zone |
| `AvailabilityRows` | what the availability slide says of each resource and day |
| `Integrity` | base64 and hex spellings of a sha512 digest |

## How it is built

Where the source keeps state and changes it step by step, there is a class with the same state and a method for each of
its functions (`FetchLoop.FetchLoop`, `Renderer.Renderer`, `Renderer.PictureEntry`, `Fit.Stage`), and where it loops over
local variables there is a method with that loop. Each method is proved to come to a function of the old state. The
functions are then what the properties are about: each protocol is a machine of steps, `Run` performs a sequence of them,
and the main results hold after every possible sequence from the start. A table row that says a method "comes to" a
function means its `ensures` equates the whole new state, or the result, with that function of the old one.

In `FetchLoop` the clock never goes back, no timer is late, and a request is aborted, and settles, at 30 seconds. Where a
result speaks of the server's documents, an ETag names one document, a 200 with JSON within the size limit is the server's
document with its ETag, and a 304 comes only for that ETag; any other answer may come at any time. The callbacks may call
`refreshNow` and `stop` before they return, in any order and number. In `Renderer` the clock never goes back and no timer
is late; a document shown has been parsed, so its slides have their seconds.

## What the proofs found

- `Renderer.OrphanIff`: `advance` forgets the slide timer on the understanding that it has just fired. `pictureChanged`
  also calls it when the browser cannot show the picture slide on screen, and that timer is then still armed. In no other
  way does the number of forgotten timers grow. Over runs in which it never happens every page gets its whole stay
  (`Renderer.NeverForgetsIff`, `Renderer.WholeStay`). Once it has, the forgotten timer can take a page away before its
  stay is over: in `Renderer.OrphanHappens` a page of 120 seconds after 5. From then on two timers drive the rotation
  (`Renderer.FiringKeepsCount`, `Renderer.ForgottenCutsShort`). Stays are still never stretched
  (`Renderer.NeverOutstays`).
- `Renderer.KeysSameIff` and `Renderer.KeysClash`: a picture's key is its file id and its version with a character between
  them, and the parser lets ids with that character through. Two pictures can then share an entry. What is said of
  pictures over runs is said of documents without such ids, where none do.
- `Rotation.BuildAcceptedIff`, `Rotation.BuildAccepted` and `Rotation.YearTooLateRefused`: the builder says its slides
  always pass the parser. They do exactly when the times they are made from lie in years 0 to 9999, and so whenever every
  time handed over does; an instant of another year is written with a sign and six digits, cut short.
- `Busy.MinuteStableIff` and `Busy.ShortWindowNotStable`: two reads of the same bookings in one minute can differ when the
  window ends between the reads.
- `ZonedTime.DayStartFirstIff`, `ZonedTime.SkippedMidnightMissed` and `ZonedTime.SecondMidnightTaken`: a date whose midnight
  lies strictly inside a skipped stretch is told to begin late, and one whose midnight is shown twice may be told to begin at
  the second.
- `AvailabilityRows.BusyAllDayIff` and `AvailabilityRows.UnmergedNotAllDay`: "busy all day" relies on the builder's merging,
  which the parser does not ask for. Of a document no builder merged, a day covered throughout is not said to be busy all day
  exactly when two intervals or more meet it. What is said of free days holds of any document.
- `Fit.FitsClaimIff` and `Fit.WordlessTooTall`: a page said not to fit is, as documented, a single character at the smallest
  size, except one whose items show no word and fit at no size.

## Model

| member | source | states |
|---|---|---|
| FetchLoop.RefinesPlainFetching | packages/display/src/fetch-loop.ts:229-301 | Over every run against a server that answers 304 only when `If-None-Match` is its document's strong ETag, the loop is in the very state it would be in had every 304 been the whole document; the (content, ETag) pairing survives the run |
| FetchLoop.NotModifiedIsPlain | packages/display/src/fetch-loop.ts:289-301 | One step of that: a 304 does to cache, screen, timer and trace exactly what the whole document would have done |
| FetchLoop.EtagStep | packages/display/src/fetch-loop.ts:121-152 | The pairing of content and ETag survives every step: writes, restamps after a 304, and being read and parsed again |
| FetchLoop.StartEtag | packages/display/src/fetch-loop.ts:331-343 | The pairing holds from the start when the cache kept from before has it |
| FetchLoop.FreshIsServers | packages/display/src/fetch-loop.ts:273-301 | Whatever a step hands over with `stale: false` is the parse of the server's document at that answer, stamped with its moment, and only an answer hands anything over so |
| FetchLoop.FreshOverRun | packages/display/src/fetch-loop.ts:229-343 | Over every run from the start, all that is ever handed over with `stale: false` is the parse of the server's document at one of the answers, stamped with the moment of that answer |
| FetchLoop.StepShows | packages/display/src/fetch-loop.ts:212-227 | With any server: a step hands over as fresh nothing but the document in the answer, or the one a 304 is for, at that moment |
| FetchLoop.WrittenIsRead | packages/display/src/fetch-loop.ts:278-301 | What is written to the cache is read back, through the parser, as the same content, ETag and time |
| FetchLoop.NeverStaler | packages/display/src/fetch-loop.ts:193-210 | Over every run and every sequence of answers, content on screen is younger than 24 h + 60 s + 30 s, and the cache still holds it: a run of 429s cannot stretch it |
| FetchLoop.NeverDiesNeverDoubles | packages/display/src/fetch-loop.ts:159-186 | Over every run: at most one request out; while not stopped a timer or a request; every delay 1 to 60 s |
| FetchLoop.StepKeeps | packages/display/src/fetch-loop.ts:229-329 | The invariant behind these is kept by every step, whatever the answer and whatever the callbacks do before they return |
| FetchLoop.RunKeeps | packages/display/src/fetch-loop.ts:229-329 | Every possible run of steps keeps that invariant |
| FetchLoop.StartKeeps | packages/display/src/fetch-loop.ts:331-343 | That invariant holds at the start, whatever the cache holds |
| FetchLoop.StoppedStays | packages/display/src/fetch-loop.ts:159-167 | Once stopped, no step asks, writes, clears or calls back |
| FetchLoop.StoppedForever | packages/display/src/fetch-loop.ts:159-167 | Once stopped, no run of steps of any length adds to the trace or touches the cache |
| FetchLoop.RevokedOnceAndLast | packages/display/src/fetch-loop.ts:169-173 | Over every run a revocation is told at most once, as the last thing the loop ever does, and leaves the cache empty for good |
| FetchLoop.FreshDelay | packages/display/src/fetch-loop.ts:212-227 | Any step that shows something fresh is the answer to a 200 or a 304, and a loop still running after it asks again in 30 to 60 s |
| FetchLoop.RefusedStops | packages/display/src/fetch-loop.ts:303-305 | A 401 that names the device realm and an invalid token stops the loop for good: timer and request gone, the cache cleared, the revocation told, and nothing else |
| FetchLoop.RevokedIff | packages/display/src/fetch-loop.ts:169-305 | A step tells a revocation exactly when that 401 answers the request in flight, or when the loop is to ask and has no token: on its timer, on `refreshNow`, or first thing in a callback; and it ends the loop |
| FetchLoop.SwitchedOffPauses | packages/display/src/fetch-loop.ts:306-314 | A 404 clears the cache, tells the pause, or a disconnection with no time where nobody listens for one, and asks again in a minute |
| FetchLoop.SlowedDown | packages/display/src/fetch-loop.ts:315-324 | A 429 with nothing too old in the cache shows nothing and waits for the header: its seconds, or those until its date, held to 1 to 60, and a minute without one |
| FetchLoop.UnreachedShowsCached | packages/display/src/fetch-loop.ts:193-210 | Any answer that says nothing of the screen, and a 429 with a document too old: what the cache holds is shown as stale exactly when it is younger than 24 hours and not over 5 minutes ahead, and otherwise the cache is cleared and the latest fetch told; again in a minute |
| FetchLoop.DocumentTaken | packages/display/src/fetch-loop.ts:278-301 | A 200 with a document, or a 304 for the one the request had: written with its ETag and the moment, shown as fresh, and asked for again after the document's own seconds |
| FetchLoop.AsksWithEtag | packages/display/src/fetch-loop.ts:229-258 | Every request has the ETag of the document still in the cache, unless the loop asks unconditionally |
| FetchLoop.UnconditionalSince | packages/display/src/fetch-loop.ts:278-301 | It does so from a 304 to a request with nothing cached until the next whole document, and no other step changes that |
| FetchLoop.StartTells | packages/display/src/fetch-loop.ts:331-343 | At the start a cached document young enough is shown as stale, any other entry cleared, and the content asked for |
| FetchLoop.ToldLatestFetch | packages/display/src/fetch-loop.ts:188-210 | Over every run, what is on screen is what was told last, and a time told with a disconnection is no earlier than the fetch of anything shown before, the cache cleared since or not |
| FetchLoop.FetchLoop.constructor | packages/display/src/fetch-loop.ts:331-343 | Starting comes to `Start`: what the cache holds is shown when young enough, cleared when not, and a request made |
| FetchLoop.FetchLoop.ReadCache | packages/display/src/fetch-loop.ts:121-152 | Reading comes to `CacheRead`, and leaves an entry that is no document cleared |
| FetchLoop.FetchLoop.StopLoop | packages/display/src/fetch-loop.ts:159-167 | Comes to `Stop`: stopped, with no timer and no request |
| FetchLoop.FetchLoop.RevokeToken | packages/display/src/fetch-loop.ts:169-173 | Comes to `Revoke`: stopped, cleared, told, in that order |
| FetchLoop.FetchLoop.Arm | packages/display/src/fetch-loop.ts:175-186 | Comes to `Next`: nothing when stopped, otherwise the one timer |
| FetchLoop.FetchLoop.RememberFetch | packages/display/src/fetch-loop.ts:188-190 | The latest fetch remembered is the later of the two |
| FetchLoop.FetchLoop.RequestContent | packages/display/src/fetch-loop.ts:229-258 | Comes to `Ask`: nothing when stopped or in flight, a revocation without a token, otherwise a request with the ETag of the document in the cache |
| FetchLoop.FetchLoop.OnSettled | packages/display/src/fetch-loop.ts:259-271 | Comes to `Settle`: an answer nobody waits for is dropped |
| FetchLoop.FetchLoop.TellUnreachable | packages/display/src/fetch-loop.ts:193-210 | Comes to `Unreachable`: the cached document shown as stale while young enough, otherwise cleared and disconnected with the latest fetch; again in 60 s |
| FetchLoop.FetchLoop.Show | packages/display/src/fetch-loop.ts:212-227 | Comes to `ShowFresh`: the fetch remembered, the content told as fresh, and the next request within the contract's bounds |
| FetchLoop.FetchLoop.HandleAnswer | packages/display/src/fetch-loop.ts:273-329 | Comes to `Handle`: what each of the six answers does to the cache, the `unconditional` flag, the callbacks and the timer |
| FetchLoop.FetchLoop.OnTimer | packages/display/src/fetch-loop.ts:182-185 | Comes to `TimerFires`: the timer is forgotten and a request made |
| FetchLoop.FetchLoop.Refresh | packages/display/src/fetch-loop.ts:347-356 | Comes to `RefreshNow`: nothing when stopped or in flight, otherwise the timer cleared and a request made |
| FetchLoop.FetchLoop.Perform | packages/display/src/fetch-loop.ts:101-358 | Every step of the program comes to `Do`, of which the run properties above are proved |
| Renderer.UrlsConserved | packages/display/src/renderer.ts:263-349 | Over every interleaving of documents, messages, `destroy`, late arrivals, image errors and timers: a URL handed back is held by exactly one ready entry or has been released exactly once, never both, and no other is released |
| Renderer.AllReleasedAfterDestroy | packages/display/src/renderer.ts:675-692 | After `destroy` every URL handed back, before it or after, has been released exactly once |
| Renderer.StepLedger | packages/display/src/renderer.ts:277-349 | Every step keeps the ledger behind these |
| Renderer.RunLedger | packages/display/src/renderer.ts:277-349 | Every run of steps keeps that ledger |
| Renderer.KeysSameIff | packages/display/src/renderer.ts:246-248 | Two pictures share a key exactly when they are of one file and version, or an id that holds the parting character straddles the two; ids without it never clash |
| Renderer.KeysClash | packages/display/src/renderer.ts:246-261 | Two pictures within the parser's limits, of different files, with one key: each is shown with the other's URL |
| Renderer.EntriesAreDocuments | packages/display/src/renderer.ts:277-300 | Over every run of documents with such ids: one entry for each file and version the document refers to, none for any other, and none without a document |
| Renderer.ShownAsksFor | packages/display/src/renderer.ts:277-324 | A document shown keeps an entry its picture still has, and asks, once each, for every picture that has none or failed five minutes ago or more |
| Renderer.UrlIsItsOwn | packages/display/src/renderer.ts:258-349 | Over every such run: a URL on screen was handed back to a request for the very file and version the slide on screen refers to |
| Renderer.ScreenHolds | packages/display/src/renderer.ts:352-386 | Over every run: a page on screen is of the document's slide at its place and with its id, a picture slide on screen has its URL, and its timer is armed |
| Renderer.DrawNeverLeaves | packages/display/src/renderer.ts:352-386 | Over every run: whatever answer, image error or minute's tick comes next, `draw` finds what the slide on screen shows, unless its own picture is what broke, and so does not leave it |
| Renderer.LooksRight | packages/display/src/renderer.ts:389-438 | Over every such run: what is on screen is drawn from the document's own slide, locale and zone, with the URL of its ready picture or none, as of a time in the minute that ends with the next tick; an availability slide tells the minute it is |
| Renderer.TickLooksNow | packages/display/src/renderer.ts:575-607 | After every tick it is as of that moment: the minute and the day |
| Renderer.NeverNeedlesslyEmpty | packages/display/src/renderer.ts:352-493 | Over every such run: with a document the screen is empty only when every slide's time is over or its picture is not there; and the page and page count on screen are what the look comes to on the canvas |
| Renderer.ComesOnInTime | packages/display/src/renderer.ts:378-387 | A page that comes on, whatever brings it, is of a slide whose `until` is still ahead and whose picture is there |
| Renderer.NeverOutstays | packages/display/src/renderer.ts:440-450 | Over every run: a page on screen has outstayed neither the end fixed when it came on nor its slide's `until`, and its timer is armed for the earlier |
| Renderer.StepKeeps | packages/display/src/renderer.ts:609-692 | The invariant behind both is kept by every step |
| Renderer.RunKeeps | packages/display/src/renderer.ts:609-692 | Every possible run of a renderer just mounted keeps that invariant |
| Renderer.StayKept | packages/display/src/renderer.ts:592-640 | Any step but its timer, a document that has its slide no more or cannot show it, a message, `destroy` or its picture breaking leaves the page on screen with the end it had; which documents those are is said of the document itself |
| Renderer.KeptIff | packages/display/src/renderer.ts:609-640 | `show` keeps the slide on screen exactly when the document has its id, at the first place that does, with its `until` ahead and its picture, if it is a picture slide, there already |
| Renderer.PageKept | packages/display/src/renderer.ts:404-438 | Such a step leaves the page it was, fitted again at most; and but for a document or a change of the canvas it is not fitted again while it looks as it did |
| Renderer.EndsAll | packages/display/src/renderer.ts:643-692 | A message and `destroy` leave no document, page, slide timer or picture, every URL handed back released once; `destroy` no tick either |
| Renderer.DestroyedForGood | packages/display/src/renderer.ts:675-692 | After `destroy` nothing is shown, asked for or armed, whatever comes |
| Renderer.RefreshingNeverStalls | packages/display/src/renderer.ts:609-640 | However often documents are fetched, pictures come and go, minutes pass and the canvas is fitted again, the end fixed when the page came on stays and has not passed |
| Renderer.OrphanIff | packages/display/src/renderer.ts:339-376 | From any state runs come to, timers forgotten or none: a step leaves one slide timer more armed and forgotten exactly when it is the image error of the picture slide on screen |
| Renderer.ForgottenAre | packages/display/src/renderer.ts:339-520 | What every step does to the forgotten timers: that image error forgets the renderer's own, a timer that fires is gone and makes the known one forgotten when it was not that one, and nothing else changes them |
| Renderer.ForgottenOverRun | packages/display/src/renderer.ts:339-520 | Over every run there are at most as many forgotten timers as pictures broken on screen |
| Renderer.NeverForgetsIff | packages/display/src/renderer.ts:339-520 | No timer is forgotten at any moment of a run exactly when no picture slide breaks on screen in it |
| Renderer.WholeStay | packages/display/src/renderer.ts:440-520 | After every run in which none breaks, the slide timer can fire only at the moment the page on screen is to leave, its end or its slide's `until`: every page gets its whole stay |
| Renderer.ForgottenCutsShort | packages/display/src/renderer.ts:496-520 | In any state runs come to, a forgotten timer due before the known one takes the page away before its end; the page that comes on gets its full seconds, and the known timer is the one forgotten |
| Renderer.OrphanHappens | packages/display/src/renderer.ts:339-376 | A document of three pictures the parser accepts and a possible run from mounting: the first picture breaks on screen, the second comes on for 120 seconds, and the first's timer takes it away after 5 |
| Renderer.OrphanCutsShort | packages/display/src/renderer.ts:496-520 | When the picture on screen breaks and its timer is due before that of the page that follows, it takes that page away when the broken picture was to leave, and the page that comes on then gets its full seconds |
| Renderer.FiringKeepsCount | packages/display/src/renderer.ts:496-520 | A timer that fires with something to show leaves as many armed as before, so the two never become one again |
| Renderer.NewStay | packages/display/src/renderer.ts:496-520 | A page that comes on is given its slide's seconds from then |
| Renderer.NextRank | packages/display/src/renderer.ts:496-520 | Each step of the rotation goes one page on, and from the last page of the last slide back to the first |
| Renderer.ReturnsAfterTotal | packages/display/src/renderer.ts:454-519 | The rotation is back where it began after exactly as many steps as there are pages, and after no fewer |
| Renderer.ComesToEveryPlace | packages/display/src/renderer.ts:454-519 | On the way it comes to every page of every slide that can be shown, to each once |
| Renderer.AdvancePlace | packages/display/src/renderer.ts:496-520 | `advance` goes to the next place of that cycle |
| Renderer.BeginPlace | packages/display/src/renderer.ts:454-493 | A rotation that starts is on the first page of the first slide that can be shown |
| Renderer.TurnPlace | packages/display/src/renderer.ts:352-519 | A firing slide timer brings the next place of the cycle, and no fetch, picture, minute or size moves the page |
| Renderer.GoesRound | packages/display/src/renderer.ts:352-641 | Over every possible run in which the document, what can be shown and the page counts stay, the page on screen is the one as many places on as the slide timer has fired: every page of every showable slide in order, and back where it was after exactly the sum of their page counts |
| Renderer.Renderer.constructor | packages/display/src/renderer.ts:127-190 | Comes to `Mounted`: nothing shown, asked for, armed or held |
| Renderer.Renderer.ReleaseAllPictures | packages/display/src/renderer.ts:269-275 | Releases each URL held once, in whatever order, and holds nothing more |
| Renderer.Renderer.LetGoOfRest | packages/display/src/renderer.ts:285-290 | Releases and forgets exactly the entries the document does not refer to |
| Renderer.Renderer.Wanted | packages/display/src/renderer.ts:278-284 | The keys the document refers to, each once and in order, with the last picture of each |
| Renderer.Renderer.AskPicture | packages/display/src/renderer.ts:302-324 | Comes to `Ask`: a new entry, pending, or failed when there is no `picture` or it throws |
| Renderer.Renderer.SyncWith | packages/display/src/renderer.ts:277-300 | Comes to `SyncPictures`: the rest let go of, then what is new, or failed five minutes ago, asked for |
| Renderer.Renderer.PictureSettled | packages/display/src/renderer.ts:326-337 | Comes to `Settle`: kept when the entry still waits for it, and otherwise handed straight back |
| Renderer.Renderer.PictureBroken | packages/display/src/renderer.ts:339-349 | Comes to `PictureFailed`: a ready entry's URL is released and the entry failed, and anything else left as it is |
| Renderer.Renderer.RedrawPicture | packages/display/src/renderer.ts:352-376 | Comes to `PictureChanged`: the slide that shows the picture is drawn again with its stay, or left when it lost it, or the rotation started |
| Renderer.Renderer.DrawSlide | packages/display/src/renderer.ts:404-451 | Comes to `DrawOrLeave`; the recursion of `draw` and `advance` ends, `advance` drawing only slides that can be drawn |
| Renderer.Renderer.ShowFirst | packages/display/src/renderer.ts:454-489 | Comes to `ShowFrom`: the first slide from there, looping, that can be shown |
| Renderer.Renderer.AdvancePage | packages/display/src/renderer.ts:496-520 | Comes to `Advance`: the slide's next page, or the next slide that can be shown |
| Renderer.Renderer.FitAgain | packages/display/src/renderer.ts:226-232 | Comes to `Refit`: the page and page count fitted anew, the stay untouched |
| Renderer.Renderer.MinuteTick | packages/display/src/renderer.ts:576-599 | Comes to `Tick`: a rotation with nothing to show is tried, a slide that looks another way drawn again, the next minute scheduled |
| Renderer.Renderer.ShowDocument | packages/display/src/renderer.ts:610-641 | Comes to `Show`: the document taken, its pictures asked for, the slide on screen kept with its stay when it can be, otherwise the rotation started |
| Renderer.Renderer.ShowMessage | packages/display/src/renderer.ts:643-651 | Comes to `Message`: no document, no page, no slide timer, every picture released |
| Renderer.Renderer.DestroyAll | packages/display/src/renderer.ts:675-692 | Comes to `Destroy`: the same, for good, with no minute timer |
| Renderer.Renderer.Perform | packages/display/src/renderer.ts:127-692 | Every step of the program comes to `Do`, of which the run properties above are proved |
| Fit.ItemPagesCut | packages/display/src/fit.ts:117-131 | The pages of items are consecutive non-empty ranges covering the list, each of more than one item measured to fit |
| Fit.GreedyIsOptimal | packages/display/src/fit.ts:117-131 | When every part of a fitting range fits, no cut that begins no later, into ranges that fit or are one item, has fewer pages |
| Fit.ItemPagesOptimal | packages/display/src/fit.ts:117-151 | Both, for the whole list |
| Fit.SearchFits | packages/display/src/fit.ts:134-151 | What the binary search comes to was found to fit, unless it is the least |
| Fit.SearchFurthest | packages/display/src/fit.ts:134-151 | When less always fits where more does, nothing beyond it fits |
| Fit.ShrinkMeaning | packages/display/src/fit.ts:154-165 | The size set is the largest that fits, by steps of 5 percent down to 60, and 60 when none does |
| Fit.TextPagesCut | packages/display/src/fit.ts:172-199 | The pages of a text are consecutive, non-empty and cover it, and each fits or is exactly one character |
| Fit.PageEndFits | packages/display/src/fit.ts:178-199 | A page's end was measured to fit, or is one character on |
| Fit.PageEndsBetweenWords | packages/display/src/fit.ts:166-199 | A page ends between two words, or inside a word that does not fit on a page from where it is begun |
| Fit.PageEndFullest | packages/display/src/fit.ts:172-220 | When less always fits where more does, a page holds as much as fits: no further word, nor a further character of a word it breaks |
| Fit.PageFullest | packages/display/src/fit.ts:78-90 | So every text page of a slide, with any further word, overflows |
| Fit.NothingLost | packages/display/src/fit.ts:269-330 | Over the pages of a range, every text node shown there shows all its text, up to white space |
| Fit.WholeSlideShown | packages/display/src/fit.ts:63-107 | Over all the pages of a slide, one after another, a reader sees, hidden items and elements marked elsewhere left out, the whole text of every node of every item, each once, up to white space |
| Fit.ElsewhereIff | packages/display/src/fit.ts:311-330 | An element is marked elsewhere exactly when the page splits the text, a node with a word on its items is under the element, and no such node has a part of its text on the page |
| Fit.PartShown | packages/display/src/fit.ts:311-330 | Each node shows on a page all its text when it is not split, nothing when it has no part there, and otherwise its part, without the space it ends with when more of it follows |
| Fit.PiecesJoin | packages/display/src/fit.ts:311-330 | The pieces of one node over consecutive pages join to its text, up to white space |
| Fit.WordEndsGood | packages/display/src/fit.ts:269-290 | The ends at which a text may be cut are in order, within it, the last at its end, and none when it is blank |
| Fit.TextWordEnds | packages/display/src/fit.ts:269-290 | A text may be cut exactly after a word and the white space that follows it |
| Fit.FlowWordEnds | packages/display/src/fit.ts:269-290 | The flow's ends are exactly those of its texts, where they lie in the whole |
| Fit.FlowGood | packages/display/src/fit.ts:269-290 | The flow's ends are increasing and its entries lie one after another in its text |
| Fit.FlowEntries | packages/display/src/fit.ts:269-290 | The flow has, once each, exactly the nodes shown that have a word |
| Fit.PageInRange | packages/display/src/fit.ts:91-107 | The page shown is the one asked for, the last when there are fewer and the first for a number below 0; `fits` says whether what is on screen does; and a slide that fits, or a canvas with no size, gives one page, as it was |
| Fit.ShownAsMeasured | packages/display/src/fit.ts:91-107 | What is left on screen is the page whose number is handed back, in the very state it was measured in, and it fits unless it is a single character or has no text to split |
| Fit.FitsClaimIff | packages/display/src/fit.ts:39-45 | A page said not to fit is a single character at the smallest size, as documented, exactly when its items show a word or fit at some size |
| Fit.WordlessTooTall | packages/display/src/fit.ts:39-45 | A slide of no words and too tall: it is said not to fit, with no character on it |
| Fit.RangeMeasured | packages/display/src/fit.ts:78-90 | Each page made of a range was measured in the state it is shown in |
| Fit.RangesMeasured | packages/display/src/fit.ts:74-90 | Each page of the slide was measured in the state it is shown in |
| Fit.TextViewOver | packages/display/src/fit.ts:311-330 | Showing a part of a text leaves the same whatever part was shown before |
| Fit.Stage.FitSlide | packages/display/src/fit.ts:63-107 | Whatever calls came before, what is handed back and what is left on screen depend on the pristine slide, the unit and the page alone |
| Fit.Stage.Restore | packages/display/src/fit.ts:253-267 | Leaves the pristine slide |
| Fit.Stage.Fitting | packages/display/src/fit.ts:134-151 | The binary search on the page comes to `Search` |
| Fit.Stage.PagesOfItems | packages/display/src/fit.ts:117-131 | The loop on the page comes to `ItemPages`, whose cut is the optimal one |
| Fit.Stage.Shrink | packages/display/src/fit.ts:154-165 | Comes to the size `ShrinkFrom` has |
| Fit.Stage.MakeFlow | packages/display/src/fit.ts:269-290 | The walk over the text nodes comes to `FlowOf`, putting by each text before it is changed |
| Fit.Stage.ShowText | packages/display/src/fit.ts:311-330 | Shows each node's piece of the part, and hides the elements left empty |
| Fit.Stage.FurthestOf | packages/display/src/fit.ts:202-220 | The binary search over ends on the page comes to the end `Search` finds |
| Fit.Stage.EndOfPage | packages/display/src/fit.ts:178-199 | The end of a page: a word's, or a character's when no word fits |
| Fit.Stage.PagesOfText | packages/display/src/fit.ts:172-199 | The loop comes to `TextPagesFrom`, a cut of the whole text |
| Fit.Stage.PagesOfItemRange | packages/display/src/fit.ts:78-90 | Comes to `PagesOfRange`: the range, or its text split when one item does not fit |
| Rotation.BuildAcceptedIff | packages/display/src/rotation.ts:148-173 | The slides the builder makes are all accepted, and read back unchanged, exactly when every time they are built from lies in years 0 to 9999; they are within the 100 |
| Rotation.BuildAccepted | packages/display/src/rotation.ts:148-173 | When the time of the fetch and every time handed over lie in years 0 to 9999, what the builder makes is accepted and read back unchanged |
| Rotation.YearTooLateRefused | packages/display/src/rotation.ts:191-223 | The news item dated at the first instant of the year 10000 makes a slide the parser refuses |
| Rotation.NewsSlideValidIff | packages/display/src/rotation.ts:191-223 | A news slide is within every limit of the contract exactly when its time can be written |
| Rotation.EventsSlideValidIff | packages/display/src/rotation.ts:249-307 | The events slide is within every limit exactly when the times of all it lists can be written |
| Rotation.MeetingSlideValidIff | packages/display/src/rotation.ts:309-364 | The meeting slide is within every limit exactly when its start can be written |
| Rotation.AvailabilitySlideValidIff | packages/display/src/rotation.ts:372-414 | The availability slide is within every limit, its intervals in order after rounding, exactly when its window can be written |
| Rotation.IdsDistinct | packages/display/src/rotation.ts:148-173 | The slides' ids are distinct, and there are at most 13 |
| Rotation.SlideIdMatches | packages/display/src/rotation.ts:497-520 | An id matches the contract's pattern, whatever the id it is made from |
| Rotation.DatedMeaning | packages/display/src/rotation.ts:191-223 | Each dated item has a slide id among the news, each id once and from its first item, in the order of the items |
| Rotation.NewsSlidesLoop | packages/display/src/rotation.ts:191-223 | The loop comes to `NewsSlides` |
| Rotation.ListedMeaning | packages/display/src/rotation.ts:249-307 | The events slide lists occurrences not ended that begin within 31 days, each by its own index, soonest first and with equal starts by id, and leaves one out only when it lists eight, none of which is after it |
| Rotation.SoonestMeaning | packages/display/src/rotation.ts:309-329 | The meeting is one not begun, before which none not begun comes, by start, then id, then place in the list; there is none exactly when all have begun |
| Rotation.SoonestLoop | packages/display/src/rotation.ts:309-327 | The loop comes to `Soonest` |
| BuiltSlides.AgendaMeaning | packages/display/src/rotation.ts:331-343 | The agenda shows items of the meeting, each by its own index, at its own position or, when that is no whole number, its place in the list, in order of both, and leaves one out only behind forty |
| BuiltSlides.BuiltSlidesTell | packages/display/src/rotation.ts:148-173 | What the parser reads of the slides built: news, events, the meeting and availability in this order, each only when its input is given and has something to show, and each saying, field by field, what its own input says |
| BuiltSlides.NewsSlidesTell | packages/display/src/rotation.ts:191-223 | The news slides are of the first ten items that can be dated and are the first with their id |
| BuiltSlides.NewsTells | packages/display/src/rotation.ts:191-223 | Each has its item's id, title, paragraphs and time, and the first of its pictures that is on file |
| BuiltSlides.PictureTold | packages/display/src/rotation.ts:225-247 | The picture is the first candidate on file with a size that is a count, with its own file, type, version and size |
| BuiltSlides.EventsSlideTells | packages/display/src/rotation.ts:249-307 | One slide of the occurrences listed, or none exactly when none is coming |
| BuiltSlides.OccurrenceTells | packages/display/src/rotation.ts:279-303 | Each tells its own start and end to the second, its title and texts whole when within their limits, whether it is called off, and the places left rounded down and no fewer than none |
| BuiltSlides.MeetingSlideTells | packages/display/src/rotation.ts:309-364 | One slide of the soonest meeting, until it begins, with its own kind, place, start and agenda, or none exactly when all have begun |
| BuiltSlides.AvailabilitySlideTells | packages/display/src/rotation.ts:372-414 | One slide of the first twelve resources of a known mode, or none exactly when there is no such resource or nothing of the span is left |
| BuiltSlides.SpanTold | packages/display/src/rotation.ts:376-388 | The span is from the minute of the later of the input's start and now to the second of its end, seven days at most; there is one exactly when such a span is not empty |
| BuiltSlides.ResourceTells | packages/display/src/rotation.ts:389-406 | Each has its own name, mode and minutes, and intervals that take exactly the instants its bookings do |
| Rotation.IntervalsWritten | packages/display/src/rotation.ts:392-412 | Merged intervals are written, in whole seconds, as they are, and stay in order |
| Busy.BusyOfMeaning | packages/display/src/rotation.ts:416-465 | `busyOf` is separated, sorted, inside [from, to), and covers an instant exactly when a booking of the resource takes it: one that begins before `to`, is under way or begins by that second, and ends after the second begins |
| Busy.ClipOccupies | packages/display/src/rotation.ts:433-448 | A clipped booking covers just those instants |
| Busy.MergedMeaning | packages/display/src/rotation.ts:451-464 | Merging sorted intervals in place keeps what they cover and separates them |
| Busy.SeparatedUnique | packages/display/src/rotation.ts:416-424 | Separated intervals are determined by what they cover |
| Busy.BusyOfCanonical | packages/display/src/rotation.ts:416-465 | Bookings that take the same instants give the identical list, in any order or split |
| Busy.MinuteStableIff | packages/display/src/rotation.ts:372-465 | Two reads for fetches within a minute, no booking ending in it, give the same list exactly when the window's end does not fall between the reads or no booking that reaches past the minute is under way; the window may begin in that minute or later |
| Busy.ShortWindowNotStable | packages/display/src/rotation.ts:372-465 | Two such reads, on each side of a window's end, that give different lists |
| Busy.BusyOfLoop | packages/display/src/rotation.ts:425-465 | The loop, merging in place, comes to `BusyOf` |
| Sorting.SortMeaning | packages/display/src/rotation.ts:451-456 | The sort is a permutation in order |
| Sorting.SortPermutes | packages/display/src/rotation.ts:451-456 | It is a permutation of indexes, each once |
| Texts.TextLessMeaning | packages/display/src/rotation.ts:490-495 | A text is before another exactly when, at the first place they differ, it ends or has the lesser code unit |
| Parse.DocumentSound | packages/display/src/parse.ts:65-133 | Every accepted document meets every limit of the contract, its slide ids distinct |
| Parse.ReadBackIff | packages/display/src/parse.ts:65-133 | A document is accepted unchanged exactly when it meets them |
| Parse.ObjectsAreOpen | packages/display/src/parse.ts:42-133 | Fields the contract does not name, at any depth of a document, make no difference to what is read |
| Parse.RefreshHeld | packages/display/src/parse.ts:122-125 | `refreshSeconds` is read as the document's own, rounded and held to 30 to 60 |
| Contract.LocalTimeIff | packages/display/src/parse.ts:161-161 | A local time is one exactly when it spells hours and minutes of a day, or 24:00 |
| Parse.Idempotent | packages/display/src/parse.ts:65-133 | Reading what was read again changes nothing |
| Parse.RefusedSlideIsSkipped | packages/display/src/parse.ts:109-117 | A refused slide inserted anywhere changes nothing that is read |
| Parse.RepeatedSlideIsSkipped | packages/display/src/parse.ts:109-117 | A slide whose id came before it, inserted anywhere after, changes nothing that is read |
| Parse.RefusedSlideInDocument | packages/display/src/parse.ts:65-133 | Inserting a refused slide changes nothing in the whole document read, while the rotation is within its 100 |
| Parse.SlideSound | packages/display/src/parse.ts:218-262 | A slide that is read is within every limit |
| Parse.SlideRoundTrip | packages/display/src/parse.ts:218-262 | A slide within the limits is accepted and read back unchanged |
| Parse.BodySound | packages/display/src/parse.ts:264-525 | A body of any of the eight kinds that is read is within the limits of its kind |
| Parse.BodyRoundTrip | packages/display/src/parse.ts:264-525 | A body within the limits of its kind is accepted and read back unchanged |
| Parse.ParseScreenContent | packages/display/src/parse.ts:65-133 | Comes to `DocumentOf`, of which soundness and idempotence are proved, with the source's two kinds of error |
| Parse.ParseRotation | packages/display/src/parse.ts:109-117 | The loop keeps the first slide of each id, in order |
| Parse.ParseEvents | packages/display/src/parse.ts:311-356 | The loop gives up at the first occurrence it cannot read |
| Parse.ReadList | packages/display/src/parse.ts:358-396 | The loop of every other list of a body gives up at the first item it cannot read, and otherwise reads them all in order |
| Parse.IsTextListLoop | packages/display/src/parse.ts:588-597 | The loop adds up code points |
| Texts.ShortenTextsMeaning | packages/display/src/text.ts:41-65 | Shortened paragraphs are within the limit together, none blank, no surrogate pair cut, and what was within the limit is kept whole |
| BuiltSlides.NonBlankOf | packages/display/src/text.ts:41-65 | What is not blank of texts one after another is what is not blank of the first and of the rest |
| BuiltSlides.NonBlankAlone | packages/display/src/text.ts:41-65 | A single text is left out exactly when it is all white space |
| Texts.ShortenTextsCut | packages/display/src/text.ts:41-65 | Too long, they are cut at one place: whole before it, then a beginning with the ellipsis, and with that text the limit is passed or less than a fragment away |
| Texts.ShortenTextsLoop | packages/display/src/text.ts:41-65 | The loop comes to `ShortenTexts` |
| Texts.ShortenTextMeaning | packages/display/src/text.ts:29-31 | A text is within its limit, unchanged exactly when it was, with no surrogate pair cut |
| Texts.WithEllipsisMeaning | packages/display/src/text.ts:12-26 | The ellipsis counts within the limit, what is before it begins the text, and no surrogate pair is cut |
| Texts.WithEllipsisKeeps | packages/display/src/text.ts:12-26 | No more is cut off than the limit asks for, but for white space and half a surrogate pair |
| Texts.CharactersAtMostLength | packages/display/src/parse.ts:565-571 | The parser's code points are never more than the shortener's code units |
| Texts.TotalCharactersAtMostLengths | packages/display/src/parse.ts:588-597 | The sum of a list's code points is never more than the sum of its code units |
| Texts.CountCharacters | packages/display/src/parse.ts:565-571 | The loop counts a surrogate pair once |
| Instants.ToInstantRead | packages/display/src/time.ts:142-145 | A time in years 0 to 9999 is written as an instant, and read as the time floored to its second |
| Instants.ToInstantRefused | packages/display/src/parse.ts:550-562 | Any other time is written as something that is no instant |
| Instants.InstantIff | packages/display/src/parse.ts:550-562 | The instants are exactly what times in years 0 to 9999 are written as |
| Instants.YearsOfTime | packages/display/src/parse.ts:550-562 | Exactly those times have a year of four digits |
| Instants.NextDate | packages/display/src/time.ts:142-145 | The date after a date is the next of the Gregorian calendar, month lengths and leap years written out |
| Instants.DateUnique | packages/display/src/time.ts:142-145 | Each date of that calendar is read of exactly one day |
| Instants.EpochIs1970 | packages/display/src/time.ts:142-145 | Days are counted from 1 January 1970 |
| ZonedTime.DayStartFirstIff | packages/display/src/time.ts:101-117 | With at most one change of offset near it, `zonedDayStart` gives the first instant of the date exactly when its midnight is not strictly inside a skipped stretch, and, shown twice, not with the change at or before that midnight in UTC |
| ZonedTime.SkippedMidnightMissed | packages/display/src/time.ts:101-117 | A zone that skips a midnight, and a date begun half an hour before it is told to |
| ZonedTime.SecondMidnightTaken | packages/display/src/time.ts:101-117 | A zone that shows a midnight twice, and a date told to begin at the second |
| ZonedTime.ReachedFromStart | packages/display/src/time.ts:101-117 | The calendar has reached the date exactly from that instant on |
| ZonedTime.DaysContiguous | packages/display/src/time.ts:120-135 | Consecutive days meet: the instants between their starts are exactly those on the day, and it is a day long but for the change |
| ZonedTime.DayLength | packages/display/src/time.ts:120-135 | With a change of at most an hour a day is 23 to 25 hours long |
| Rotation.AvailabilityWindowEnds | packages/display/src/rotation.ts:180-189 | The availability window begins in the minute of the fetch and ends with the next day |
| AvailabilityRows.RowTellsTruth | packages/display/src/slides.ts:415-497 | A row says busy at an instant it tells exactly when an interval covers it |
| AvailabilityRows.RowTellsIntervals | packages/display/src/slides.ts:475-492 | A row that is busy at times tells, in order, one stretch for each interval that takes some of what it tells: within the day, of exactly the instants of the day the interval covers, and to 24:00 exactly when it reaches the day's end |
| AvailabilityRows.FreeBetweenIff | packages/display/src/slides.ts:429-455 | "Free from … to …" is said exactly of a stretch that is not the whole and not taken, with its own ends |
| AvailabilityRows.WholeDayClaims | packages/display/src/slides.ts:415-497 | Of any intervals the parser lets through: "free all day" and "free for the rest of the day" are said exactly when the whole stretch is known and free, and "busy all day" only when it is known and covered |
| AvailabilityRows.BusyAllDayIff | packages/display/src/slides.ts:415-497 | Of any such intervals: "busy all day" is said exactly when the stretch is known and covered and no two intervals meet it; so the claim fails exactly when several do |
| AvailabilityRows.MergedBusyAllDay | packages/display/src/slides.ts:415-497 | Of merged intervals: "busy all day" is said exactly when the whole stretch is known and covered |
| AvailabilityRows.UnmergedNotAllDay | packages/display/src/slides.ts:415-497 | A document the parser accepts, of a resource busy until noon and from noon on: drawn that midnight, the day is covered and not said to be busy all day |
| AvailabilityRows.DaysKnown | packages/display/src/slides.ts:391-413 | A day told is today or tomorrow, only where the document knows it and from now on, and is whole exactly when none of it, of today from now on, is unknown |
| AvailabilityRows.DaysCoverWindow | packages/display/src/slides.ts:391-413 | Every instant from now to the end of tomorrow that the document knows is told by exactly one day |
| AvailabilityRows.FrameInOrder | packages/display/src/slides.ts:355-374 | The day starts it is drawn from are in order, now being in today |
| AvailabilityRows.BuiltRowTellsBookings | packages/display/src/slides.ts:355-500 | A slide the builder made is accepted by the parser, and drawn from what was parsed has a row for the resource and the day that says busy at an instant exactly when a booking of the resource takes it, and "busy all day" exactly when that is so throughout |
| AvailabilityRows.Rows | packages/display/src/slides.ts:412-497 | The loops make a row of each resource and day |
| AvailabilityRows.AddDay | packages/display/src/slides.ts:391-411 | A day is added when something of it is known |
| Integrity.DecodeInvertsEncode | packages/plugin-sdk/src/integrity.ts:91-125 | Decoding inverts encoding, for every number of bytes |
| Integrity.FormatRoundTrip | packages/plugin-sdk/src/integrity.ts:49-77 | A digest of 64 bytes, formatted, parses to itself |
| Integrity.HexRoundTrip | packages/plugin-sdk/src/integrity.ts:49-85 | Its hex spelling, in either case, parses to the same bytes |
| Integrity.SriAcceptedIff | packages/plugin-sdk/src/integrity.ts:49-72 | An SRI spelling is accepted exactly when it has 86 letters before at most two "=" |
| Integrity.AcceptedIff | packages/plugin-sdk/src/integrity.ts:49-72 | A digest is read exactly from one of its two spellings, its SRI or 128 hex digits, with any white space around it |
| Integrity.TrimMeaning | packages/plugin-sdk/src/integrity.ts:49-50 | What is trimmed is the white space at both ends |
| Integrity.SameDigestIff | packages/plugin-sdk/src/integrity.ts:87-108 | Two spellings, each with none to two "=", name one digest exactly when 85 letters agree and the last differ at most in its four stray bits |
| Integrity.DrainedIsDecode | packages/plugin-sdk/src/integrity.ts:91-108 | The accumulator gives the bytes of each group of four letters and drops the stray bits |
| Integrity.FromBase64 | packages/plugin-sdk/src/integrity.ts:91-108 | The loop fills the array with exactly those bytes |
| Integrity.WrittenIsEncode | packages/plugin-sdk/src/integrity.ts:110-125 | The groups written are the letters of the sextets, filled up with "=" |
| Integrity.WholeGroups | packages/plugin-sdk/src/integrity.ts:110-125 | What is written is four characters for each group of three bytes, the last begun ones filled up |
| Integrity.EncodesFoobar | packages/plugin-sdk/src/integrity.ts:110-125 | The last test vector of section 10 of RFC 4648 |
| Integrity.ToBase64 | packages/plugin-sdk/src/integrity.ts:110-125 | The loop writes exactly that |
| Integrity.FromHex | packages/plugin-sdk/src/integrity.ts:79-85 | The loop reads the digits two by two |
| Integrity.HexAccepted | packages/plugin-sdk/src/integrity.ts:66-72 | 128 hex digits are accepted |
| Integrity.AlphabetHas | packages/plugin-sdk/src/integrity.ts:20-21 | `indexOf` finds every letter the pattern lets through |
| Integrity.LetterRoundTrip | packages/plugin-sdk/src/integrity.ts:20-21 | Reading a letter inverts writing it |
| Integrity.ParseSha512 | packages/plugin-sdk/src/integrity.ts:49-72 | Comes to `Sha512`: the bytes an SRI or hex spelling names, and an error for any other |
| Integrity.FormatSha512 | packages/plugin-sdk/src/integrity.ts:75-77 | The digest's letters after the prefix, filled up; parsing it gives the digest back |

## Left out

- The page itself: elements, styles, animations, `ResizeObserver`, fonts, the clock, the note, the off band and the
  theme. Of drawing, only what is drawn, which page, and when remain. `inSchedule` is not modelled.
- Words: translations, formatted times and capitalised days. A row of the availability slide is which of the five things
  it says, and of which stretch.
- Layout: whether a slide overflows is any function of what is visible and the unit, and a slide drawn is fitted by any
  function of its look, the unit and the page. The property that a part of what fits fits is assumed only where a lemma says so.
- Word and character boundaries inside a text (`Intl.Segmenter`): any function giving increasing ends up to the text's.
- Time zone data: a zone is any function from instants to offsets within a day of UTC, and dates are day numbers, so
  `Date.UTC`'s reading of the years 0 to 99 as 1900 to 1999, and a zone that skips a whole date, are not modelled.
- `Date.parse` of the builder's inputs: each such input is the time it reads as, or none. Instants of the contract's own
  shape are read and written in full.
- The network, header patterns (`parseChallenge`, `Retry-After` as text) and `JSON.parse`: an answer is its status with what
  those read from it, and a document is a JSON value. Field names are an enumeration with one case for any other.
- The cache's storage: it reads back what was last written, and reading and writing do not throw. `token`, `fetch` and the
  callbacks return; a callback throwing is not modelled.
- The renderer's callbacks: `picture` and `releasePicture` do not call the renderer back, and a request settles after
  `picture` has returned. The key a look is compared by is the tuple it is made of rather than its JSON text.
- `hash`: any function giving 1 to 11 base-36 digits. That it rarely collides is not a property here; news items whose ids
  collide share one slide, as in the source.
- Percent steps stand for the factors `shrink` multiplies by; floating point is not modelled.
- A rotation whose showable slides or page counts change on the way follows no one cycle; of its pages' stays
  `Renderer.NeverOutstays` and `Renderer.RefreshingNeverStalls` speak.
- `AvailabilityRows.BuiltRowTellsBookings`: of a window in years 0 to 9999, as the slide is otherwise refused.
- `packages/plugin-sdk/src/catalog.ts`, `apps/api`, `e2e` and the rest of the SDK are not part of this model.
