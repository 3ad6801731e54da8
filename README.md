# pic-grab and sorter, modelled in Dafny

Two small Python programs of one repository, modelled and verified.

- **The crawler** (`main.py`): the `Grabber` class keeps a FIFO queue of URLs still
  to visit and a set of URLs already considered. `process_found_url` classifies a
  URL against prefix-anchored "no follow", "follow" and "download" pattern lists
  and saves matching downloads. The saved name is the URL path's basename, or an
  MD5 stem plus the original extension when the basename is longer than 64
  characters. A download is skipped when a file of that name exists in a
  directory searched for duplicates. `visit_next_url` pops the head of the queue,
  scans the response text with a fixed three-way link pattern, resolves each
  link against the page, and drops links to another network location unless
  that is allowed. `main` completes and normalises the configuration, seeds the
  queue with the base URLs, and drains it.
- **The image sorter** (`sorter.py`): the `Controller` class keeps a sorted list
  of image paths and a cursor into it. It interprets key bindings as actions
  (QUIT, RELOAD, DEL, NEXT [n], MOVE folder, COPY folder), and `init_config`
  normalises the bindings loaded from JSON.

Layout, leaves first:

| file | module | what it holds |
|---|---|---|
| wrappers.dfy | `Wrappers` | `Option`, `Result` |
| strings.dfy | `Strings` | `\s`, digits, `str(n)`, Python's `int(s)` in base 10 |
| pathnames.dfy | `PathNames` | POSIX `os.path.basename`, `os.path.splitext` |
| ordering.dfy | `Ordering` | `<=` on `str`, `list.sort()` as a function |
| linkscan.dfy | `LinkScan` | the link pattern of main.py:116 under `re.finditer` |
| crawl_config.dfy | `CrawlConfig` | the configuration dictionary and its normalisation |
| crawl_model.dfy | `CrawlModel` | one crawl step as functions on a value, and its properties |
| grabber.dfy | `Grabbing` | class `Grabber`, proved against `CrawlModel`; `main`'s drive loop |
| actions.dfy | `SorterActions` | the action language; the target path of a move or copy |
| bindings.dfy | `KeyBindings` | key-binding normalisation |
| sorter_model.dfy | `SorterModel` | the controller as functions on a value, and its properties |
| controller.dfy | `ImageSorter` | class `Controller`, proved against `SorterModel` |

Libraries the programs call become parameters:

- The crawler's libraries are the function values of `CrawlModel.Oracles`:
  `re.match` of a user pattern, `urljoin`, `urlparse(..).netloc` and `.path`,
  the MD5 hex digest (any 32 lower-case hex digits), and `session.get`. Every
  property holds whatever they answer.
- The sorter's `glob.glob` is a function of the pattern and of the set of files
  that exist.
- The file system is a map from path to content (crawler) or a set of paths
  (sorter).
- A `ConnectionError` is a `raised` flag.
- The sorter's exceptions are an `Error` value returned with the state the
  exception left behind: Tk reports an exception raised in a key handler and
  the program goes on.

The stateful parts are classes whose methods update their fields in place. Each
method's `ensures` ties the new fields to a function of the old ones
(`CrawlModel.FoundUrl`, `CrawlModel.Visit`, `SorterModel.Show`, and so on). The
lemmas state what the source promises about those functions.

## Model

| member | source | states |
|---|---|---|
| Grabbing.Grabber.constructor | main.py:42-54 | A new grabber has an empty queue, an empty visited set and an empty configuration, and has visited no page. |
| Grabbing.Grabber.ProcessFoundUrl | main.py:56-104 | The queue, visited set and disk become those of `FoundUrl`. The ghost logs of enqueued and written URLs still hold no URL twice, and every logged URL is visited. |
| Grabbing.Grabber.DownloadMatching | main.py:83-104 | The download loop, with its `return`s and without a `break`, leaves the disk, the written URLs and the raised flag that `DownloadLoop` gives. |
| Grabbing.Grabber.VisitNextUrl | main.py:106-128 | Popping the head and processing the page's links in order gives the state of `Visit`. A `ConnectionError` abandons the rest of the page. The head joins the log of popped pages, and the logs of queued and written URLs stay free of duplicates. |
| Grabbing.Grabber.ScanPage | main.py:115-128 | The loop over the page's matches gives the state of `Scan` on their links, stopping at the first `ConnectionError`. |
| Grabbing.Grabber.ProcessGroups | main.py:118-128 | Of a match's three groups, only the one that is set is resolved. It is dropped when it changes network location and that is not allowed, and processed otherwise, as `Consider` says. |
| Grabbing.AnyMatch | main.py:70-81 | The loop with `break` finds a match exactly when some pattern of the list matches. |
| Grabbing.FileName | main.py:85-90 | The computed file name is `DerivedName`. |
| Grabbing.FileExists | main.py:92-95 | The duplicate check is true exactly when `dir + "/" + name` exists for some directory of the list. |
| Grabbing.Configure | main.py:219-242 | The command line's base URLs replace the file's when given. The usage error comes exactly when there are no base URLs. Otherwise the configuration keeps them and gains every command-line key. Each other key (download, follow, no_follow, allow_netloc_change, ...) keeps its value when that is true and takes the command line's otherwise. The target loses one trailing '/', and it is appended to the duplicate directories if it is absent. |
| Grabbing.Run | main.py:217-260 | It exits with the usage error exactly when there are no base URLs. Otherwise it runs with the configuration `Configure` describes: the base URLs, the target and duplicate directories, and the download, follow, no_follow and allow_netloc_change values. It seeds the queue with the base URLs, which are the first pages visited, in their order. The final state is what successive `Visit`s of the pages popped give from the seeded state, and the queue ends empty. |
| Grabbing.SeedAndDrain | main.py:249-260 | The configuration is installed and the queue seeded with the base URLs. The pages popped start with them, and the final state is what successive `Visit`s of the pages popped give from the seeded state, with an empty queue. |
| Grabbing.Drain | main.py:255-260 | In a finite URL universe the main loop terminates with an empty queue. The visited set only grows and the grabber stays valid. Each page popped was the head of the queue at its turn, and the final state is what `Visit`ing those pages in order gives. The pages popped take the queue's old contents first, in order (FIFO across the run). |
| CrawlModel.RevisitChangesNothing | main.py:62-64 | A URL already visited changes nothing: not the queue, not the visited set, not the disk; nothing is written or raised. |
| CrawlModel.NewUrlIsVisited | main.py:65 | A new URL is added to the visited set, even when its download then raises. |
| CrawlModel.EnqueueExactlyWhenFollowed | main.py:69-81 | The queue gains at its tail exactly `[url]` when the URL is new, no "no follow" pattern matches and some "follow" pattern does; otherwise it is unchanged. |
| CrawlModel.NoFollowPrecedence | main.py:69-81 | A URL matching a "no follow" pattern never enters the queue, whatever the "follow" patterns say. |
| CrawlModel.DerivedNameKeepsExtension | main.py:85-90 | The derived name has no '/'. It is the basename when that has at most 64 characters, and otherwise 32 characters longer than the extension. Either way it keeps the basename's extension. |
| CrawlModel.LongNameDigested | main.py:88-90 | A basename longer than 64 characters becomes a name 32 characters longer than its extension, without '/', that keeps the extension. |
| CrawlModel.DigestKeepsExtension | main.py:90 | A hex digest followed by an extension (empty, or one '.' with no further '.' or '/') has no '/' and splits back into that extension. |
| CrawlModel.LoopOnlyAdds | main.py:83-104 | The download loop only adds files, writes only for the URL, and leaves the disk alone when it writes nothing. |
| CrawlModel.NothingAfterWrite | main.py:91-95 | Once `target/name` exists and the target is searched for duplicates, further download patterns change nothing. |
| CrawlModel.LoopIsFirstMatch | main.py:83-104 | The loop without `break` does what the first matching pattern alone does, so it writes at most one file per URL. |
| CrawlModel.DuplicateNotFetched | main.py:91-95 | A name already present in a directory searched for duplicates means no request, no write and no error. |
| CrawlModel.NotOkWritesNothing | main.py:98-101 | A response that is not ok writes nothing and raises nothing. |
| CrawlModel.OkWritesContent | main.py:91-104 | A good response for an eligible new URL writes its content to `target + "/" + name`, once, and changes nothing else on disk. |
| CrawlModel.RaisedOnlyWhenRefused | main.py:83-104 | A `ConnectionError` escapes exactly when the URL is new, eligible, not a duplicate, and its request fails. |
| CrawlModel.WriteCreatesNewFile | main.py:91-104 | A write never overwrites: the written path did not exist before, and it is the only path added. |
| CrawlModel.FoundUrlFresh | main.py:62-104 | One call appends and writes at most its own URL, only when that URL had not been visited, and marks it visited. |
| CrawlModel.ConsiderGrows | main.py:121-128 | One link only adds to the visited set, the queue tail and the disk. A link that adds nothing to the visited set adds nothing at all. |
| CrawlModel.ConsiderFresh | main.py:121-128 | One link appends and writes only URLs that were not visited before and are visited after. |
| CrawlModel.ScanGrows | main.py:115-128 | A page's links only add to the visited set, to the queue's tail and to the disk. |
| CrawlModel.ScanFresh | main.py:115-128 | Within a page no URL is appended twice or written twice, and each one appended or written was new. |
| CrawlModel.ScanGated | main.py:121-128 | Every newly visited URL is one of the page's links resolved against the page, and on the page's network location unless changes are allowed. Every appended URL passes the follow policy. |
| CrawlModel.ScanStops | main.py:115-128 | After a `ConnectionError` the rest of the page's links change nothing. |
| CrawlModel.VisitPopsHead | main.py:111-128 | A visit removes the head of the queue and only appends at its tail. |
| CrawlModel.CrawledExtend | main.py:256-260 | One more turn of the main loop visits the current head of the queue after the pages already visited. |
| CrawlModel.CrawledUnique | main.py:256-260 | The pages visited determine the final state of the crawl. |
| CrawlModel.VisitIsFifo | main.py:111-128 | A visit removes exactly the head of the queue and appends only new, followed URLs at the tail, each once. Each URL written was new and is now visited. |
| CrawlModel.VisitProgress | main.py:106-128 | In a closed universe of URLs a visit either visits new URLs of the universe or shortens the queue, which bounds the main loop. |
| LinkScan.UrlRun | main.py:116 | A greedy `[^\s<>]*` stops at the first character it does not accept. |
| LinkScan.AttrRun | main.py:116 | A greedy `[^"']*` stops at the first quote. |
| LinkScan.MatchAtShape | main.py:116 | A match found at a position starts there, and has the shape its alternative prescribes with a non-empty, maximal group. |
| LinkScan.FindFrom | main.py:115-117 | `re.finditer` yields well-shaped matches in text order, none overlapping. |
| LinkScan.NothingSkipped | main.py:115-117 | No position before the first match found holds a match. |
| LinkScan.OnePresentGroup | main.py:118-119 | Of a match's three groups exactly one is true in Python, and it holds the link. |
| CrawlConfig.FillFromArgs | main.py:233-235 | Every command-line value is copied in unless the configuration holds a true value under that name. Other keys are untouched. |
| CrawlConfig.DropTrailingSlash | main.py:238-239 | One trailing '/' is removed if there is one; otherwise the target is unchanged. |
| CrawlConfig.DropsOneSlashOnly | main.py:238-239 | Only one '/' goes: `t + "//"` becomes `t + "/"`. |
| CrawlConfig.AppendAbsent | main.py:241-242 | The target ends up in the list, and is appended only when it was absent. |
| CrawlConfig.FilledIsConfigured | main.py:233-235 | After filling, every key the crawl reads has a value of the type it is used as. |
| CrawlConfig.WithTargetIgnored | main.py:237-242 | The normalised configuration has the target in the duplicate directories, and changes no other key. |
| CrawlConfig.NormaliseConfig | main.py:233-242 | The normalised configuration keeps the base URLs and has the preferred values. The target loses one trailing '/' and is appended to the duplicate directories if absent. |
| PathNames.BasenameShape | main.py:85 | A basename has no '/', ends the path, and is the whole path or follows a '/'. |
| PathNames.BasenameAfterSlash | sorter.py:102-103 | A name without '/' after a directory ending in '/' is that path's basename. |
| PathNames.SplitExtJoins | main.py:89 | Stem and extension put back together give the name. |
| PathNames.ExtensionShape | main.py:89 | An extension is empty, or one '.' followed by neither '.' nor '/'. |
| PathNames.ExtensionOfDottedName | main.py:89 | A stem that has no '/' and does not start with '.', followed by '.' and then characters other than '.' and '/', splits into that stem and that extension. |
| Ordering.LexTotal | sorter.py:128 | Any two strings are ordered one way or the other. |
| Ordering.LexAntisymmetric | sorter.py:128 | Two strings each at most the other are equal. |
| Ordering.LexTransitive | sorter.py:128 | The string order is transitive. |
| Ordering.Sort | sorter.py:128 | `list.sort()` leaves the same strings, in ascending order. |
| Ordering.SortedUnique | sorter.py:128 | Two sorted arrangements of the same strings are equal, so the sorted list is determined by its contents. |
| Ordering.SortIdempotent | sorter.py:128 | Sorting twice changes nothing. |
| Strings.NatToStringValue | sorter.py:74 | The digits of `str(n)` denote `n`. |
| Strings.ParseIntString | sorter.py:249 | `int(str(n)) == n` for every integer. |
| Strings.ParseIntRejects | sorter.py:246-252 | `int()` rejects a string holding any character other than a digit, a sign, an underscore or whitespace. |
| SorterActions.ParseRender | sorter.py:59-89 | Parsing an action's canonical text gives the action back. |
| SorterActions.ParseRenderNext | sorter.py:70-76 | "NEXT n" reads as NEXT with count `n`, negative or not. |
| SorterActions.ParseRenderMove | sorter.py:78-81 | "MOVE f" reads as MOVE to `f` for a folder on one line that starts with a non-space. |
| SorterActions.ParseRenderCopy | sorter.py:83-86 | "COPY f" reads as COPY to `f` under the same condition. |
| SorterActions.NextCountRoundTrip | sorter.py:70-74 | The count group of "NEXT n" reads back as `n`. |
| SorterActions.ArgumentRoundTrip | sorter.py:78-86 | The folder group of "<word> f" reads back as `f`. |
| SorterActions.NextPrefixWins | sorter.py:70-76 | Every string starting with NEXT is a NEXT action, and one without a readable count moves on by one. |
| SorterActions.MoveNeedsFolder | sorter.py:78-89 | MOVE or COPY followed by nothing but whitespace is an unknown action. |
| SorterActions.AsDirectory | sorter.py:99-100 | The corrected folder ends in '/'. It is the folder itself when the folder already ends in '/', and the folder plus one '/' otherwise. |
| SorterActions.TargetKeepsName | sorter.py:98-105 | The corrected target has the image's own basename. |
| SorterActions.TargetInFolder | sorter.py:98-105 | The corrected target lies in the folder named. |
| SorterActions.TargetAsWrittenLosesSlash | sorter.py:99-103 | As written, folder "/d" and image "a/img.jpg" give "/dimg.jpg", which has a different basename. The corrected version gives "/d/img.jpg". |
| SorterActions.TargetAsWrittenDoublesSlash | sorter.py:99-103 | As written, folder "b/" gets a second '/', giving "b//img.jpg". |
| KeyBindings.LastKey | sorter.py:249 | The key found is one of the loaded keys, and `int()` turns it into the number asked for. |
| KeyBindings.LastKeyIsLast | sorter.py:245-252 | A key is found exactly when some key converts to the number, and it is the last such key in iteration order. |
| KeyBindings.AddKeyCodeStep | sorter.py:245-252 | One loop turn binds the number the key converts to, keeping the invariant for one more key. |
| KeyBindings.AddKeyCodes | sorter.py:245-252 | Every string key is kept with its value, and no other string key is added. A number is bound exactly when some key converts to it, to the value of the last such key. |
| KeyBindings.NormaliseBindings | sorter.py:245-258 | As `AddKeyCodes`, except that key code 9 is always QUIT, overriding the file, and "r" is RELOAD only when the file does not bind it. |
| SorterModel.Slot | sorter.py:92 | Python's `xs[i]` refers to `i` or `i + len(xs)`, inside the list. |
| SorterModel.RemoveKeepsOrder | sorter.py:93 | `del xs[k]` shortens the list by one, keeps the other elements in order, and removes one copy of `xs[k]`. |
| SorterModel.LoadSorts | sorter.py:120-129 | A single pattern becomes a one-element list, and nothing but the list, cursor and patterns changes. It raises exactly when the old list and the glob results are both empty. Otherwise the list becomes the old paths plus the found ones, sorted, with the cursor on the first. |
| SorterModel.Show | sorter.py:131-141 | On success the cursor is on an image of a non-empty list and that image is shown. It fails only by finding no images while loading an empty list. The files are unchanged. |
| SorterModel.ModTurns | sorter.py:135-137 | Adding whole turns of the list does not move the cursor. |
| SorterModel.ShowThereAndBack | sorter.py:131-141 | On a non-empty list, NEXT n followed by NEXT -n returns to the same image. |
| SorterModel.ShowFullTurn | sorter.py:134-137 | Moving by `n + len` shows what moving by `n` shows. |
| SorterModel.ReloadDuplicates | sorter.py:120-129 | RELOAD with unchanged files lists every path twice, because the list is not cleared. |
| SorterModel.DeleteRemovesCurrent | sorter.py:91-96 | DEL removes exactly the current path and its file and keeps the others in order. The cursor stays, wrapping to 0 from the last position. |
| SorterModel.MoveRelocates | sorter.py:107-112 | MOVE renames the current file into the folder under its own name, and removes exactly its path from the list. |
| SorterModel.CopyKeepsList | sorter.py:114-118 | COPY leaves the list and cursor unchanged and adds the copy. |
| SorterModel.RunKeepsCursor | sorter.py:59-89 | Every action that completes, except QUIT, leaves the cursor on an image of a non-empty list. QUIT only requests quitting. |
| SorterModel.PerformRendered | sorter.py:46-89 | A binding holding an action's canonical text performs that action. |
| SorterModel.KeyCodeFirst | sorter.py:149-152 | The key-code binding wins over the character binding, so Escape, bound to QUIT, quits. |
| SorterModel.UnloggedMoveMisplaces | sorter.py:99-110 | With INFO not logged, MOVE "/d" as written leaves the image at "/dimg.jpg". Corrected, it moves it to "/d/img.jpg". |
| SorterModel.LoggedMoveMovesNothing | sorter.py:107-115 | With INFO logged, MOVE and COPY as written leave the files as they were. Corrected, they move or copy "a/img.jpg" to "b/img.jpg". |
| ImageSorter.Controller.constructor | sorter.py:38-44 | A new controller has an empty list and the cursor at -1. |
| ImageSorter.Controller.LoadImagesFromSrc | sorter.py:120-129 | The fields become `Load`'s state, and the method raises what `Load` raises. |
| ImageSorter.Controller.AppendGlobbed | sorter.py:123-124 | `+=` of each pattern's glob appends the results in pattern order. |
| ImageSorter.Controller.ShowNextImg | sorter.py:131-141 | The fields become `Show`'s state, loading first when the list is empty. |
| ImageSorter.Controller.MoveCursor | sorter.py:134-140 | The `while` loop and `%=` leave the cursor at `(index + n) mod len`, and that image is shown. |
| ImageSorter.Controller.DeleteCurrentImage | sorter.py:91-96 | The fields and error become `DeleteCurrent`'s. |
| ImageSorter.Controller.GetTargetFileName | sorter.py:98-105 | It fails exactly when the cursor is outside the list. Otherwise it returns the current path unchanged and the corrected target. |
| ImageSorter.Controller.MoveCurrentImageTo | sorter.py:107-112 | The fields and error become `MoveCurrent`'s. |
| ImageSorter.Controller.CopyCurrentImageTo | sorter.py:114-118 | The fields and error become `CopyCurrent`'s. |
| ImageSorter.Controller.PerformAction | sorter.py:46-89 | The fields and error become those of the parsed action, run. |
| ImageSorter.Controller.HandleKeyEvent | sorter.py:143-154 | The key code's binding goes first, then the character's; an unbound key does nothing. |

## Left out

- `main.py` neither saves nor restores the queue or the visited set, and has no retry and no periodic save. None of these is modelled.
- Base URLs are queued at main.py:249 without being marked visited, so a page linking back to one queues it again. `Grabber.Valid` keeps the at-most-once guarantee for URLs queued by `process_found_url`.
- `os.path.abspath` and `os.mkdir` of the target (main.py:245-247): the target keeps its configured spelling, the spelling the duplicate check compares against.
- Grabbing.FileExists and CrawlModel.ExistsIn compare paths as written. They do not collapse "//" or "./", and the file system does. So a duplicate directory spelled with a trailing '/' ("archive/") misses its file "archive/x.jpg", which `os.path.isfile("archive//x.jpg")` finds, and the model downloads where main.py:93-95 skips. With the defaults of main.py this does not arise: the target "fetched/" becomes "fetched", and that spelling is appended to the duplicate directories.
- Writing the downloaded file (main.py:103-104) always succeeds: I/O errors are not modelled.
- Exceptions other than `ConnectionError` in the crawler are not modelled. These include an invalid user pattern (`re.error`), a fetch error of another kind, and a configuration value of the wrong JSON type. `CrawlConfig.Shaped` requires the types the crawler uses.
- The HTTP session is a fixed function of the URL. A page fetched twice gets the same answer.
- The logging calls, the `print` calls, argparse, the JSON decoding and `sys.exit` are not modelled. The parsed arguments and the loaded JSON are inputs of `Grabbing.Run` and `KeyBindings.NormaliseBindings`.
- Grabbing.Run, Grabbing.SeedAndDrain and Grabbing.Drain: termination is proved for a finite universe of URLs that `urljoin` never leaves (`CrawlModel.Closed`). With an unbounded web the program may run forever.
- CrawlModel.DuplicateNotFetched, NotOkWritesNothing, OkWritesContent, RaisedOnlyWhenRefused, WriteCreatesNewFile and the `Fresh` lemmas assume the target is among the directories searched for duplicates (`CrawlModel.TargetSearched`). `main` establishes this at main.py:241-242 and `Grabber.Valid` keeps it. Without it, a second matching download pattern fetches and writes again.
- `Strings.ParseInt` accepts ASCII digits only. Python's `int()` also accepts other Unicode decimal digits.
- KeyBindings.AddKeyCodes is proved for any conversion `read`, and `NormaliseBindings` instantiates it with `ParseInt`.
- Key bindings: JSON values that are not strings are not modelled.
- Key bindings: the iteration order of the loaded dictionary is a parameter, a sequence of its keys without repeats.
- Image files are paths compared as strings, so "b//img.jpg" and "b/img.jpg" are different files in the model.
- A folder that does not exist makes `os.rename` and `copyfile` raise in Python. The model creates the target regardless.
- `copyfile` onto an existing target overwrites it; in the model the target is simply present.
- The Tk view, the EXIF orientation, PIL and `ImgView` (sorter.py:158-209) are reduced to the path last shown.
- `root.quit()` is reduced to a flag.
- SorterModel.DeleteRemovesCurrent and MoveRelocates are stated for a cursor in `0 <= index < len`, which is where `show_next_img` leaves it, and for a list of two or more images. The one-image case is not stated by them. There the list empties and `show_next_img(0)` reloads it from the glob, which `DeleteCurrent`, `MoveCurrent` and `SorterModel.Show` describe. Negative cursors are likewise covered only by `DeleteCurrent` and `MoveCurrent`.
- ImageSorter.Controller.GetTargetFileName returns the corrected target (`TargetFileName`), not that of sorter.py:99 as written. See Findings: `SorterModel.MoveAsWritten` and `CopyAsWritten` model the code as written.
- ImageSorter.Controller.MoveCurrentImageTo moves to the corrected target. It does not raise the `TypeError` of the logging call at sorter.py:108 (see Findings). ImageSorter.Controller.PerformAction and ImageSorter.Controller.HandleKeyEvent inherit this: a MOVE they dispatch uses the corrected target and does not raise.
- ImageSorter.Controller.CopyCurrentImageTo copies to the corrected target. It does not raise the `TypeError` of the logging call at sorter.py:115 (see Findings). ImageSorter.Controller.PerformAction and ImageSorter.Controller.HandleKeyEvent inherit this: a COPY they dispatch uses the corrected target and does not raise.

## Findings

| source | as written | input that shows it | evidently intended | confidence | as-written member | corrected member |
|---|---|---|---|---|---|---|
| sorter.py:99 | `target_folder[:-1] != "/"` tests everything but the last character | folder "/d", image "a/img.jpg" gives "/dimg.jpg", a file in the root directory; folder "b/" gives "b//img.jpg", which names the intended file | test the last character (`[-1:]`, as main.py:238 does), giving "/d/img.jpg" | not executed | SorterActions.TargetAsWritten, SorterActions.TargetAsWrittenLosesSlash, SorterActions.TargetAsWrittenDoublesSlash, SorterModel.UnloggedMoveMisplaces | SorterActions.TargetFileName, SorterActions.TargetKeepsName |
| sorter.py:108-115 | `logging.info("Moving", end=" ")` passes a keyword that logging does not take, raising `TypeError` whenever INFO is logged, as sorter.py:265 arranges | MOVE b or COPY b on image "a/img.jpg" leaves the files unchanged | log the message without `end` and go on to move or copy | not executed | SorterModel.MoveAsWritten, SorterModel.CopyAsWritten, SorterModel.LoggedMoveMovesNothing | SorterModel.MoveCurrent, SorterModel.CopyCurrent, SorterModel.MoveRelocates |
