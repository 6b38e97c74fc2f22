# cast_yt: a Dafny model of the YouTube-to-Chromecast script

The script `cast_yt.py` takes a receiver's friendly name and a YouTube URL or
bare id. It discovers the Chromecast receivers on the network and picks one by
name. It waits for the receiver to become reachable, then asks the YouTube
receiver app to play the video through a `YouTubeController`. This project
models the decisions that script makes and proves what they guarantee:

- `video_id.dfy` (module `VideoId`) models `extract_youtube_id`. Stage one searches for the first
  `v=`, `youtu.be/`, `/v/` or `/embed/` followed by 11 characters of
  `[0-9A-Za-z_-]`. Only when that fails, stage two takes the leftmost
  11-character window of that alphabet.
- `devices.dfy` (module `Devices`) models the two passes of `find_cast_by_name` over the discovered
  receivers. Discovery is an input sequence.
- `readiness.dfy` (module `Readiness`) models the polling loop of `wait_for_cast_ready`. The input is
  the sequence of probes taken before the deadline.
- `controller.dfy` (module `Controller`) models the screen id `desktop-<name lowered, spaces to _>`
  and `play_with_youtube_controller`. An input names which library call raises, if one does.
- `cast_yt.dfy` (module `CastYt`) models the branching of `main` as a small state machine over phases.
  `MainFlow` runs the pieces in the script's order and records the phases it passes through.
- `ascii.dfy` and `wrappers.dfy` hold ASCII lower-casing, substring search and an
  `Option` type.

The module docstring (cast_yt.py:8) promises a
`play_media(url, 'video/mp4')` fallback when the controller fails. The code
issues none, and the model follows the code. `main` then returns normally, so
the process exit status is 0 whether the attempt failed or no id was extracted.
It is 2 only when no receiver matched.

## Model

| member | source | states |
|---|---|---|
| VideoId.ExtractYoutubeId | cast_yt.py:26-33 | any id returned is 11 characters of `[0-9A-Za-z_-]` and occurs contiguously in the URL |
| VideoId.CaptureStart | cast_yt.py:29-31 | when stage one matches at a position, the captured group starts right after one of the four prefixes that occurs there, and an id window follows |
| VideoId.LeftmostMatch | cast_yt.py:29 | `re.search` for stage one: the result is a matching position with no match before it; None means no position matches |
| VideoId.LeftmostWindow | cast_yt.py:32 | `re.search` for stage two: the result is an id window with none before it; None means no window exists |
| VideoId.PrefixesExclusive | cast_yt.py:29 | at one position at most one of the four alternatives can match, so the alternation order never changes the capture |
| VideoId.ExtractPrefixed | cast_yt.py:29-31 | prefix priority: if the leftmost prefixed id starts at i, the result is the 11 characters after that prefix, even when a bare 11-character run appears earlier |
| VideoId.ExtractFallback | cast_yt.py:32-33 | with no prefixed id anywhere, the result is the leftmost 11-character window, even one inside a longer run |
| VideoId.ExtractNoneIff | cast_yt.py:27-33 | no id is returned exactly when the URL has no 11-character window of id characters, which covers the empty URL |
| VideoId.NoMatchInIdChars | cast_yt.py:29 | a string of id characters contains no prefix, because each prefix holds one of `=`, `.`, `/` |
| VideoId.ExtractIdempotent | cast_yt.py:29-33 | extracting from a valid id returns that same id |
| VideoId.ExtractStable | cast_yt.py:26-33 | extracting again from an extracted id gives the same result |
| VideoId.ExampleShortLink | cast_yt.py:29-31 | `https://youtu.be/dQw4w9WgXcQ` yields `dQw4w9WgXcQ` |
| VideoId.ExampleBareId | cast_yt.py:32-33 | the bare id `dQw4w9WgXcQ` yields itself through stage two |
| VideoId.ExampleNoId | cast_yt.py:27-33 | `hello` and the empty string yield None |
| Devices.FirstAccepted | cast_yt.py:40-46 | one pass: the first record in enumeration order whose name the pass accepts; None means no record is accepted |
| Devices.FindCastByName | cast_yt.py:36-47 | the two early-exit loops return exactly the record chosen by the resolver specification `Resolve` |
| Devices.SameNameContains | cast_yt.py:40-46 | a name accepted by pass one (equal, or equal ignoring case) is also accepted by pass two (contains ignoring case) |
| Devices.ResolveSameName | cast_yt.py:40-42 | the first record whose name equals the target exactly or ignoring case is chosen, so an earlier case-insensitive match beats a later exact one |
| Devices.ResolveContains | cast_yt.py:44-46 | when no name passes pass one, the first record whose lower-cased name contains the lower-cased target is chosen |
| Devices.ResolveNoneIff | cast_yt.py:40-47 | the result is "not found" exactly when no name contains the target ignoring case |
| Devices.ResolveFound | cast_yt.py:40-47 | a found record is one of the discovered records, and its name contains the target ignoring case |
| Devices.ExampleCaselessName | cast_yt.py:40-42 | `living room tv` against `Living Room TV`, `Kitchen Display` selects the first record |
| Devices.ExampleEarlierCaselessWins | cast_yt.py:40-42 | `LIVING ROOM TV` listed before `living room tv` wins for the target `living room tv` |
| Devices.ExampleSubstring | cast_yt.py:44-46 | `hub` selects `Office Nest Hub` through pass two |
| Devices.ExampleNotFound | cast_yt.py:47 | `bedroom` against `Kitchen Display` is not found |
| Readiness.WaitForCastReady | cast_yt.py:50-66 | the result is true exactly when some probe taken before the deadline is ready. It stops at the first ready probe. A probe that raised counts as not ready |
| Controller.ScreenIdShape | cast_yt.py:74 | the screen id is `desktop-` followed by the name, character by character, lowered and with spaces turned into `_` |
| Controller.ScreenIdNoSpaces | cast_yt.py:74 | a screen id contains no space and no ASCII capital |
| Controller.ScreenIdIgnoresCase | cast_yt.py:74 | a name and its lower-cased form give the same screen id |
| Controller.ExampleScreenId | cast_yt.py:74 | `Living Room TV` gives `desktop-living_room_tv` |
| Controller.PlayWithYoutubeController | cast_yt.py:69-108 | returns true exactly when no library call raises. An exception stops the calls at the raising one and gives false. A built session carries the derived screen id, the app `ytcasts` and the device id |
| CastYt.TerminalIsLast | cast_yt.py:133-157 | nothing follows `sys.exit` or the return of `main` |
| CastYt.RunShapes | cast_yt.py:125-157 | the control flow of `main` has exactly four complete runs: not found, no id, attempt succeeded, attempt failed |
| CastYt.RunGuarantees | cast_yt.py:133-157 | every run exits with 0 or 2. Status 2 means no device was resolved. There is at most one controller attempt. `sys.exit(0)` comes only right after an attempt |
| CastYt.MainFlow | cast_yt.py:125-157 | exit 2 exactly when no device resolves. The attempt happens exactly when a device resolved and an id was extracted, and it uses that id and the device's screen id. `sys.exit(0)` happens exactly when the attempt returns true. A failed readiness poll only changes the recorded warning |

## Left out

- Discovery (`pychromecast.get_chromecasts`, `stop_discovery`) is network I/O. The discovered receivers are the input sequence `devices`.
- `main` runs discovery twice (cast_yt.py:131-132). The model uses one list, so it does not capture that the printed "Available" list may differ from the searched one.
- Devices.FindCastByName: returns the position of the chosen record in the discovered list, not the cast object itself. Its unused `timeout` parameter is omitted.
- Ascii.Lower: maps only ASCII capitals. Python's Unicode-aware `str.lower()` is not modelled, so case-insensitive matching and screen ids are exact only for ASCII names.
- The casttube `YouTubeSession` and the pychromecast `YouTubeController`, `register_handler`, `cast.wait()` and `play_video` calls are foreign library code. Only their raise/return outcome is modelled, through the `raises` input. The session's field writes (cast_yt.py:80-82) are modelled as a `Session` value.
- Controller.PlayWithYoutubeController: a raise inside the `try` at the screen id expression (cast_yt.py:74) or at the `device_id` read (cast_yt.py:82) has no stage of its own. It is folded into `CreateSession` or `CreateController`, which gives the same result: the attempt returns false.
- Readiness.WaitForCastReady: the wall clock, the 8-second timeout and the 200 ms sleep are not modelled. The probes sampled before the deadline are the input.
- The calls in `main` outside any `try` (`get_chromecasts`, `cast.wait()` at cast_yt.py:143) are assumed to return. An exception from them would crash the script and is not modelled.
- Argument parsing, verbose printing, the post-play sleep and the status read are not modelled. Nor are the listing of available names on the not-found path and the `sys.exit` plumbing beyond the exit status.
- `search_yt.py` (a web search helper and its config file) and `list_cast.py` (discovery plus printing) contain no decision logic and are not part of this model.
