# twitch-cli status checker, modelled in Dafny

twitch-cli (`source/main.c`) checks whether the streamers listed in its
configuration are live. It fetches each streamer's channel page with libcurl
and looks in the markup for two markers: `live_user` means live, and
`www.twitch.tv/` means the channel exists but is offline. Anything else is an
error. The program then runs in one of two modes:

- Interactive menu: the user picks a live streamer, and the program builds a
  `mpv` command line for that stream.
- Watcher (`-d`): every minute it fetches all the statuses again and runs
  `notify-send` for each streamer who is live now and was not live at start-up.

This project models the part of that program that makes decisions or updates
buffers:

| file | module | what it models |
|---|---|---|
| `clib.dfy` | `CLib` | The C library routines the program relies on: the NUL-terminated view of a buffer that `strlen` and `strstr` take, `strstr` as substring containment (checked against a reference definition), `realloc`, `memcpy` and `atoi`. |
| `memory.dfy` | `Memory` | `struct MemoryStruct` as a class with a `memory` array and a `size` field. Its `Append` method is `WriteMemoryCallback`: it reallocates, copies the new bytes in and puts the NUL back. |
| `commands.dfy` | `Commands` | The request URL, the notification command and the `mpv` command, each as a function. The copy code becomes methods proved equal to those functions. The allocation sizes the source uses are kept as separate functions. |
| `fetch.dfy` | `Fetch` | The classification into status codes 0 (live), 1 (offline) and 2 (error), and `FetchStreamerData`. That is a sequential loop that fills an `array<int>` with one status per streamer. |
| `daemon.dfy` | `Daemon` | One poll of the watcher: the notification rule and the commands it issues. |
| `menu.dfy` | `Menu` | The menu's `do … while` loop: which typed line exits, which one selects a streamer, and when "Error." is printed. |

The network is an input. Each streamer's transfer is a `Transfer`: the chunks
curl hands to the write callback, in order, and whether the transfer ends with
`CURLE_OK`. Whether each `realloc` succeeds is an input too, one per chunk.
The terminal is also an input: the menu gets the lines the user typed, without
their newlines.

Some facts about the code that shape the model:

- Fetches run one after another.
- The watcher compares every poll with the statuses fetched at start-up. That
  snapshot is never replaced, so a streamer who was not live at start-up is
  notified again on every poll that finds them live (`Daemon.RenotifiedWhileLive`).
- `FetchStreamerData` reads the global `streamers` array rather than its
  `streamer` parameter. The model passes the list as a parameter; `main`
  passes that same global, so the behaviour is the same.

## Model

| member | source | states |
|---|---|---|
| CLib.CStr | source/main.c:141-149 | The text `strstr` searches: the longest NUL-free prefix of the buffer. It stops at the first NUL, or at the end when there is none. |
| CLib.CStrAppend | source/main.c:141-149 | A NUL-free prefix is kept whole in the C string, and the search continues in what follows it. |
| CLib.CStrStopsAtNul | source/main.c:141-149 | Bytes after the first NUL never reach `strstr`. |
| CLib.Contains | source/main.c:143-146 | `strstr(s, p) != NULL`: `p` is tried at each offset of `s`, left to right. It is checked against the reference definition `Occurs` in `CLib.ContainsIffOccurs`. |
| CLib.ContainsIffOccurs | source/main.c:143-146 | `strstr(s, marker)` finds something exactly when the marker occurs at some offset of `s`. Both directions are proved against the reference definition `Occurs`. |
| CLib.ContainsInside | source/main.c:143-146 | A marker written out in full inside a text is found there. |
| CLib.Realloc | source/main.c:162 | A successful `realloc` returns a new block of the requested size that starts with all the old bytes. |
| CLib.MemCpy | source/main.c:168 | `memcpy` puts the source bytes at the offset. Bytes before and after that range are unchanged. |
| CLib.Atoi | source/main.c:84 | C `atoi`: leading `isspace` characters are skipped, then an optional sign, then the longest run of digits. Text that does not start that way gives 0. The value is unbounded (see Left out). |
| CLib.AtoiSkipsSpaces | source/main.c:84 | Leading white space does not change what `atoi` reads. |
| CLib.AtoiNonNumeric | source/main.c:84 | `atoi` gives 0 for text that has no digit after the optional blanks and sign. |
| CLib.AtoiDecimal | source/main.c:61-84 | `atoi` of a number printed with `%d` gives that number back. |
| Memory.MemoryStruct.constructor | source/main.c:112-113 | A new response buffer holds the empty string: one byte, size 0. |
| Memory.MemoryStruct.Append | source/main.c:159-171 | If the realloc succeeds, the callback returns `size*nmemb`, and `size` grows by that much. Bytes `[0, old size)` are unchanged, bytes `[old size, new size)` are the content, and `memory[size]` is NUL. If the realloc fails, the result is `ExitFailure` and the buffer is unchanged. |
| Memory.BufferCString | source/main.c:141-149 | `strstr` on `chunk.memory` sees the received bytes up to their first NUL. |
| Commands.BuildUrl | source/main.c:114-128 | The URL buffer is `"https://www.twitch.tv/" ++ name` followed by a NUL at index `|prefix| + |name|`. |
| Commands.UrlAsCString | source/main.c:121-129 | When the name has no NUL, curl receives exactly the channel page address, and the name can be read back from it. |
| Commands.UrlAllocOneShort | source/main.c:121-128 | For every name, the terminated URL is one byte longer than the allocation at line 121. |
| Commands.BuildNotification | source/main.c:43-49 | The notification buffer is `notify-send "` ++ name ++ ` is live"` followed by a NUL. |
| Commands.NotificationAsCString | source/main.c:43-51 | `system` runs exactly that text, which contains the name after `notify-send "`. |
| Commands.NotificationAllocOneShort | source/main.c:45-49 | For every name, the terminated notification is one byte longer than the array declared at line 45. |
| Commands.BuildPlayerCommand | source/main.c:92-101 | The `mpv` buffer is the fixed start ++ name ++ `"`, followed by a NUL. |
| Commands.PlayerOpensRequestedPage | source/main.c:92-103 | The player is pointed, in double quotes, at the same address that was requested for the streamer. |
| Commands.PlayerAllocOneShort | source/main.c:93-101 | For every name, the terminated command is one byte longer than the allocation at line 93. |
| Fetch.Classify | source/main.c:137-149 | Every status code is 0, 1 or 2. |
| Fetch.LiveMarkerMakesLive | source/main.c:143-144 | A successful page with `live_user` before any NUL is live (0), whatever else it contains, `www.twitch.tv/` included. |
| Fetch.ExistMarkerMakesOffline | source/main.c:145-146 | A successful page with `www.twitch.tv/` before any NUL, and without `live_user`, is offline (1). |
| Fetch.FailedTransferIsError | source/main.c:137-138 | A failed transfer is an error (2), whatever was received. |
| Fetch.BytesAfterNulIgnored | source/main.c:141-149 | Bytes after a NUL in the page never change the status. |
| Fetch.ClassifyByOccurrence | source/main.c:143-149 | Live exactly when the live marker occurs. Offline exactly when the live marker does not occur and the channel marker does. Error exactly when neither occurs. |
| Fetch.FirstExit | source/main.c:162-166 | The index of the first streamer whose transfer hits a failed realloc, or the count when there is none. Every earlier transfer allocates successfully. |
| Fetch.Perform | source/main.c:133-136 | Each chunk goes through the write callback, in order. Unless a realloc fails, the buffer then holds the concatenation of the chunks. |
| Fetch.FetchOne | source/main.c:114-149 | One streamer: the address requested is its channel page, NUL-terminated. The process exits exactly when a realloc fails during its transfer. Otherwise the status computed is the classification of what the transfer delivered. |
| Fetch.FetchStreamerData | source/main.c:108-156 | Slot `i` ends up holding the classification of streamer `i`'s transfer, for every `i` before the first allocation failure. The slots from there on keep their old values. Nothing but `status` is modified. Request `i` goes to streamer `i`'s page. |
| Daemon.NotifiedBelow | source/main.c:41-42 | The notified indices are exactly those where the start-up status is not 0 and the new status is 0, listed in increasing order. |
| Daemon.Poll | source/main.c:41-52 | One poll issues one NUL-terminated `notify-send` command per notified index, in index order, and nothing else. |
| Daemon.RenotifiedWhileLive | source/main.c:37-55 | Given the same start-up baseline for both polls, as the loop keeps it, a streamer who was not live at start-up is notified on every poll that finds them live. |
| Daemon.LiveAtStartNeverNotified | source/main.c:41-42 | A streamer who was live at start-up is never notified. |
| Daemon.NotifiedExample | source/main.c:41-52 | With start-up statuses offline, live, error and all three now live, exactly the first and third streamers are notified. |
| Menu.ErrorGuardAsWrittenReadsOutside | source/main.c:70-74 | The guard as written reads outside `status` exactly when `answer` is -1 or the exit option. At the first prompt (`answer == -1`) it reads `status[-2]`. |
| Menu.ErrorGuardAgreesInside | source/main.c:74 | Wherever the guard as written stays inside `status`, it has the same value as the corrected guard. |
| Menu.ErrorGuard | source/main.c:73-76 | With the intended grouping, "Error." is printed exactly when an answer has been given and it is not a live streamer's number. |
| Menu.RepromptIffNotSelectable | source/main.c:89 | For any answer other than the exit option, the loop condition holds exactly when the answer is not a live streamer's number. |
| Menu.SelectStream | source/main.c:70-89 | The loop's outcome is the line-by-line decision `MenuDecision`. It prompts once per line up to and including the first line that exits or selects, and stops there. When no line does, it prompts once more and the input has run out. With the corrected line-74 guard (see Findings), the first prompt shows no error, and each later prompt shows one unless the previous answer read as -1. |
| Menu.PlayOnlyLive | source/main.c:85-89 | The loop leaves with an answer only if `1 <= answer <= count` and `status[answer-1] == 0`. |
| Menu.FirstDecisiveLineDecides | source/main.c:80-89 | The first line that is empty, or reads as `count+1`, exits. The first line that reads as a live streamer's number selects. Every earlier line re-prompts, and later lines do not matter. |
| Menu.NoMoreInputIffNoneDecisive | source/main.c:72-89 | The input runs out exactly when no line exits or selects. |
| Menu.TypingShownNumber | source/main.c:59-89 | Typing the number printed beside a live streamer selects that streamer. |
| Menu.TypingExitNumber | source/main.c:68-87 | Typing the number printed beside "Exit" exits, for any statuses: with no live streamer, and with no streamers at all. |
| Menu.MenuExample | source/main.c:70-89 | With statuses live, offline, error, the answers 0, 2, 3 and 5 re-prompt, 1 selects, and an empty line exits. |

## Left out

- libcurl (`curl_global_init`, `curl_easy_*`, lines 117-136) is foreign network I/O. The model takes each streamer's transfer as an input: the chunks delivered and whether the transfer ended with `CURLE_OK`. The URL is built and recorded, but it does not influence the transfer.
- `system` (lines 51 and 103) starts external processes. Only the command strings are modelled.
- `sleep(60)` and the endless `while (1)` of the watcher (lines 38 and 54) are timing and non-termination. `Daemon.Poll` models one poll; `Daemon.RenotifiedWhileLive` relates two.
- The coloured menu listing (lines 58-68) and the prompts (line 77) are terminal output. Only the numbering they show is used, in `Menu.TypingShownNumber`.
- `fgets` and the newline strip at line 79 are input handling. Each input line arrives without its newline. Line 79 assumes a trailing newline and removes the last character whatever it is; that is not modelled. Nor is the 255-byte limit of `fgets` with `MAX_ANSWER` (line 78): a longer typed line is consumed over several prompts, while the model reads it as one answer. Nor is `fgets` at end of input, which leaves the buffer as it was; there the model ends with `NoMoreInput`.
- The mode dispatch `argc == 2 && !strcmp(argv[1], "-d")` (line 37) is not modelled: the watcher and the menu are modelled separately. The messages "Error, no memory available!" (line 164) and "Starting stream..." (line 90) are terminal output and are not modelled either.
- Allocation of the `status` and `new_status` arrays (lines 35 and 39) is taken as given. The arrays are passed in.
- The `streamers` array comes from `config.h`, which is not part of this model. It is a parameter.
- Memory leaks are not modelled: `status` (line 35) and `new_status` (line 39) are never freed, and the curl handle made at line 118 for each streamer is never cleaned up. The byte `malloc(1)` leaves uninitialised at lines 112 and 152 is modelled as a NUL, so an empty response reads as the empty string.
- Memory.MemoryStruct.Append: its result is a plain `nat`. The multiplication `size*nmemb` and the sum `mem->size + realsize + 1` can wrap around in `size_t`; the model does not capture that, because curl always passes `size == 1` and page sizes stay far below the limit.
- CLib.Realloc: it always returns a fresh block. A real `realloc` may grow the block in place. No other reference to the old block exists, so this changes nothing the program can observe.
- CLib.Atoi is unbounded. The C `atoi` has undefined behaviour on overflow; the model does not capture that.
- The allocation failure of `malloc` itself (lines 112, 121, 152 and 93) is not modelled. The source does not check those results.

## Findings

| source | as written | input that shows it | evidently intended | confidence | as-written member | corrected member |
|---|---|---|---|---|---|---|
| source/main.c:121 | `malloc(strlen(address) + strlen(name))`, then line 128 writes the NUL at index `strlen(address) + strlen(name)` | any name, e.g. `abc`: a 25-byte buffer gets its NUL written at index 25 | allocate one more byte for the NUL | high; not executed | Commands.UrlAllocOneShort (with Commands.UrlAllocAsWritten) | Commands.BuildUrl |
| source/main.c:45 | `char notification[strlen(command) + strlen(name) + strlen(message)]`, then `strcat` writes a NUL after the message | any name, e.g. `abc`: a 25-byte array gets its NUL written at index 25 | declare one more byte for the NUL | high; not executed | Commands.NotificationAllocOneShort (with Commands.NotificationAllocAsWritten) | Commands.BuildNotification |
| source/main.c:93 | `malloc(strlen(start) + strlen(name) + 1)`, then line 100 writes the closing quote and line 101 the NUL at index `strlen(start) + strlen(name) + 1` | any name, e.g. `abc`: a 77-byte buffer gets its NUL written at index 77 | allocate `+ 2` bytes: one for the quote, one for the NUL | high; not executed | Commands.PlayerAllocOneShort (with Commands.PlayerAllocAsWritten) | Commands.BuildPlayerCommand |
| source/main.c:74 | `answer != -1 && answer <= 0 \|\| answer > count + 1 \|\| status[answer - 1] != 0` groups as `(answer != -1 && answer <= 0) \|\| …`, so the guard does not stop at `answer != -1` | the first prompt, where `answer == -1`, reads `status[-2]`; so does any prompt after the user typed `-1` | `answer != -1 && (answer <= 0 \|\| answer > count + 1 \|\| status[answer - 1] != 0)`, as the comment on line 73 describes | high; not executed | Menu.ErrorGuardAsWrittenReadsOutside (with Menu.ErrorGuardAsWritten) | Menu.ErrorGuard, used by Menu.SelectStream |

With the corrected guard, the prompt after a typed `-1` shows no "Error.": `-1` is the value the program uses to mean "no answer yet". `Menu.SelectStream` keeps that behaviour and states it.
