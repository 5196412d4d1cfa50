# Bilibili favourites downloader: a Dafny model of the download core

`bilifavirousdownload.py` downloads the videos in a user's Bilibili
favourite folders. For each `(bvid, cid, quality)` job it works in order:

1. It checks the in-memory ledger `downloaded`.
2. It fetches the video metadata and finds the page with this `cid`.
3. It builds a sanitized output file name.
4. It resolves the DASH video and audio stream URLs.
5. It fetches both streams with retries to temporary `.m4s` files.
6. It merges them with ffmpeg.
7. It appends a record to the JSON history file.
8. It deletes the temporaries.

This project models that core in Dafny 4 and proves what each part promises.

The modules follow the program:

- `Text`: the Python string semantics the core relies on. `str.strip()` uses
  Python's whitespace set. `str.split(sep)` has a `Join` inverse. `str(int)`
  is decimal rendering with a proved value round trip.
- `Naming`: the filename cleaning of lines 293 and 299, the output path of
  line 300, and the temporary names of lines 308-309.
- `Ledger`: the history file as `json.load` sees it, what
  `_load_download_history` derives from it, and what `_save_download_entry`
  makes of it.
- `Streams`: `_get_media_urls`. Python's `max(..., key=bandwidth)` keeps the
  first of equal maxima, and the model does the same.
- `Fetch`: the retry loop of `_download_media`. A partial file is deleted
  after every failed attempt.
- `Pagination`: the page loop of `_get_paginated_data`.
- `Qualities`: the `zip` loop of `get_available_qualities`. A later rank
  overwrites the entry of an earlier equal rank.
- `Downloader`: the `BilibiliDownloader` class. Its state is `downloaded`,
  the history file and the temporary directory. `DownloadVideo` is specified
  by the stage it stops at, the external operations it performs in order, and
  its new state.
- `Interactive`: the two `input()` loops of `InteractiveManager`.

Every network reply, the state of the history file, how its rewrite ends,
whether each transfer attempt completes, the ffmpeg result, the clock,
`int()` and the lines typed at `input()` are parameters: datatypes of
outcomes, or functions from attempt number to outcome. The exceptions the
`except` clauses of the request functions catch are one
`Raised`/`Failed`/`Unavailable` case each. Deleting a file (`unlink`) is
assumed to succeed; see "Left out".

Where the code's own messages and comments promise more than it does, the
model follows what the code does:

- Line 81 logs that a corrupt history file "has been reset", but nothing
  resets it. Loading a zero-size, unreadable or non-array file gives the
  empty set. Saving to such a file raises at line 92 (`open`), line 93
  (`json.load`) or line 95 (`append` on a JSON value that is not a list) before anything is
  written. So every later record is lost too (`Ledger.Saved`).
- The rewrite at lines 103-104 opens the file with `"w"`, which empties it
  before `json.dump` runs. A dump that raises part-way leaves an empty or
  incomplete file, and the next load forgets every key
  (`Ledger.LoadAfterSave`).
- Line 323's comment announces the cleanup of the temporary files, but
  lines 324-325 are skipped when ffmpeg exits non-zero. `CalledProcessError`
  is raised with `stderr` set to `None`, since it was sent to `DEVNULL`. The
  handler's `e.stderr.decode()` then raises `AttributeError`, which escapes
  `_merge_files`. `download_video` returns False at line 328 and both
  temporary files stay (`MergeRaised`, `Downloader.TempAfter`).
- The code does not prefer any kind of audio stream: it takes the
  highest-bandwidth audio stream of any tier (line 356).
- The code does not put the uploader or any suffix in the output name: it
  is `{title}_{part}.mp4` (line 299).

## Model

| member | source | states |
|---|---|---|
| Text.Strip | bilifavirousdownload.py:374 | the result is trimmed and is the slice of the input between a leading and a trailing run of Python whitespace |
| Text.StripUnique | bilifavirousdownload.py:374 | any slice with only whitespace around it and no whitespace at its ends is exactly what `strip()` returns |
| Text.StripTrimmed | bilifavirousdownload.py:398 | `strip()` leaves an already trimmed string unchanged |
| Text.FirstIndex | bilifavirousdownload.py:218 | where `split(":", 1)` cuts: the first colon, none before it |
| Text.Split | bilifavirousdownload.py:398 | `split(sep)` gives at least one piece and no piece contains the separator |
| Text.SplitJoin | bilifavirousdownload.py:398 | joining the pieces of `split(sep)` with `sep` gives back the string |
| Text.JoinSplit | bilifavirousdownload.py:398 | splitting a join of separator-free pieces gives back exactly those pieces |
| Text.IntToString | bilifavirousdownload.py:308-309 | `str(cid)` is non-empty, all digits except perhaps a leading `-` |
| Text.IntToStringRoundTrip | bilifavirousdownload.py:308-309 | the decimal value of `str(n)` is `n` |
| Text.IntToStringInjective | bilifavirousdownload.py:308-309 | distinct integers render to distinct strings |
| Naming.RemoveIllegal | bilifavirousdownload.py:293 | the regex deletion never lengthens a name and leaves none of `\ / : * ? " < > \|` |
| Naming.RemoveIllegalChars | bilifavirousdownload.py:293 | a character survives iff it occurs in the input and is not illegal |
| Naming.RemoveIllegalCounts | bilifavirousdownload.py:293 | each legal character keeps its number of occurrences |
| Naming.RemoveIllegalAppend | bilifavirousdownload.py:293 | the deletion distributes over concatenation |
| Naming.RemoveIllegalLegal | bilifavirousdownload.py:293 | a name with no illegal character is unchanged |
| Naming.SanitizeTitle | bilifavirousdownload.py:293 | the title cleaning; specified by `Naming.SanitizeTitleSpec` |
| Naming.SanitizeTitleSpec | bilifavirousdownload.py:293 | the cleaned title has at most 100 legal characters, all from the raw title; it is a prefix of the stripped cleaned title, and all of it unless 100 were kept |
| Naming.SanitizePart | bilifavirousdownload.py:299 | the page-label cleaning; specified by `Naming.SanitizePartSpec` |
| Naming.SanitizePartSpec | bilifavirousdownload.py:299 | the cleaned page label is trimmed, legal and made of the raw label's characters |
| Naming.OutputName | bilifavirousdownload.py:299 | the output file name; specified by `Naming.OutputNameLegal` |
| Naming.OutputNameLegal | bilifavirousdownload.py:299 | the output name is legal, ends in `.mp4` and starts with the cleaned title followed by `_` |
| Naming.OutputPath | bilifavirousdownload.py:300 | the output path; specified by `Naming.OutputPathSpec` |
| Naming.OutputPathSpec | bilifavirousdownload.py:300 | the output path is the save path plus one component with no `/` or `\`, so no title can move the file out of the save directory |
| Naming.TempName | bilifavirousdownload.py:308-309 | the temporary names; specified by `Naming.TempNameInjective` |
| Naming.TempNameInjective | bilifavirousdownload.py:308-309 | equal temporary names imply equal `bvid`, `cid` and track: jobs for distinct `(bvid, cid)` pairs never share a temporary file, and a job's video and audio temporaries are distinct; two jobs differing only in quality use the same two files |
| Streams.MaxBandwidth | bilifavirousdownload.py:352-356 | `max` fails exactly on an empty list, and otherwise returns the first element of maximal bandwidth |
| Streams.PicksFirstMax | bilifavirousdownload.py:352-356 | of equal bandwidths the earlier stream is chosen |
| Streams.WithId | bilifavirousdownload.py:353 | the tier filter; specified by `Streams.WithIdMembers` and `Streams.WithIdIgnoresOthers` |
| Streams.WithIdMembers | bilifavirousdownload.py:353 | the generator keeps exactly the streams whose `id` is the requested quality |
| Streams.WithIdIgnoresOthers | bilifavirousdownload.py:352-355 | appending streams of other tiers does not change the candidates of the requested one |
| Streams.GetMediaUrls | bilifavirousdownload.py:332-360 | the stream selection; specified by `Streams.GetMediaUrlsSpec` |
| Streams.GetMediaUrlsSpec | bilifavirousdownload.py:332-360 | URLs are returned iff the reply has code 0, a video stream of exactly the requested tier and some audio stream; the video URL is then a highest-bandwidth stream of that tier and the audio URL a highest-bandwidth audio stream |
| Streams.NoTierNoUrls | bilifavirousdownload.py:348-355 | a non-zero code, or no stream of the tier, gives no URLs: no lower tier is substituted |
| Streams.VideoTieBreakExample | bilifavirousdownload.py:352-357 | a worked manifest through the whole selection: of two rank-80 encodings of equal bandwidth the earlier is chosen, and a faster rank-64 stream is ignored |
| Streams.VideoSelectionExample | bilifavirousdownload.py:352-357 | a worked manifest: among three rank-80 encodings the 900k one wins over a 990k stream of rank 64 |
| Fetch.DownloadMedia | bilifavirousdownload.py:227-252 | the transfer succeeds iff one of the first `max_retries` attempts completes; it stops at the first that does, otherwise spends the whole budget (none for `max_retries <= 0`); after each attempt a file is at the path exactly when that attempt completed |
| Pagination.GetPaginatedData | bilifavirousdownload.py:141-170 | every page before the last requested was a code-0 page of at least 20 items, the last one ends the loop, and the result is the items of all accepted pages in page order |
| Qualities.ParseDescription | bilifavirousdownload.py:217-221 | the cleaned description is trimmed and shorter than the original when it held a colon |
| Qualities.ParseDescriptionSpec | bilifavirousdownload.py:217-221 | a description without a colon is only stripped; `prefix:text` with a colon-free prefix gives the stripped text, whatever colons the text holds |
| Qualities.GetAvailableQualities | bilifavirousdownload.py:192-225 | a failed or non-zero reply gives the empty dict; otherwise the keys are exactly the ranks of the `zip`ped pairs and each maps to the description of the last pair with that rank |
| Qualities.ZipTableStep | bilifavirousdownload.py:213-221 | one loop turn extends the table of the first `i` pairs to that of the first `i + 1` |
| Qualities.ZipTableKeys | bilifavirousdownload.py:212-222 | the dict's key set is the set of zipped ranks |
| Ledger.KeyOf | bilifavirousdownload.py:74-77 | the key triple of one record, or none for a `KeyError`; used by `Ledger.LoadHistory` |
| Ledger.LoadHistory | bilifavirousdownload.py:65-85 | a missing, zero-size or corrupt file, or a record without a key field, gives the empty set; otherwise a key is loaded iff some record carries it |
| Ledger.NewRecord | bilifavirousdownload.py:95-101 | the appended record carries the key `(bvid, cid, quality)` |
| Ledger.Saved | bilifavirousdownload.py:87-106 | a successful rewrite extends an array by exactly the new record and turns a missing file into a one-record array; a failed open, or a zero-size or corrupt file, leaves the file as it was; a dump that fails after the truncating open leaves an empty or a corrupt file |
| Ledger.LoadAfterSave | bilifavirousdownload.py:65-106 | loading after a save adds the record's key exactly when the rewrite succeeded on an extensible file, gives the empty set when the dump failed after the truncating open, and gives the old set otherwise |
| Ledger.DuplicateCollapses | bilifavirousdownload.py:74-77 | a record whose key is already in the file leaves the loaded set unchanged |
| Ledger.LoadHistorySize | bilifavirousdownload.py:74-77 | the loaded set has no more keys than the file has records |
| Downloader.FindPage | bilifavirousdownload.py:294 | the page lookup; specified by `Downloader.FindPageSpec` |
| Downloader.FindPageSpec | bilifavirousdownload.py:294 | `next(...)` finds nothing iff no page has this cid, and otherwise the first page that has it |
| Downloader.UsableUrls | bilifavirousdownload.py:304 | both URLs present and non-empty; bound to the method by `Downloader.BilibiliDownloader.ResolveAndFetch` and stated by `Downloader.PipelineChain` |
| Downloader.FetchStop | bilifavirousdownload.py:312-316 | the `and` chain of fetch, fetch and merge; stated by `Downloader.PipelineChain` and bound by `Downloader.BilibiliDownloader.FetchMergeRecord` |
| Downloader.Stop | bilifavirousdownload.py:281-326 | the stage a job stops at; specified by `Downloader.PipelineChain`, and bound to the method by `Downloader.BilibiliDownloader.DownloadVideo` |
| Downloader.PipelineChain | bilifavirousdownload.py:281-326 | a known key performs nothing; each stage is reached only when every earlier one succeeded, so the audio is fetched only after the video and the merge only after both; a job records iff every stage succeeds |
| Downloader.TraceIsPrefix | bilifavirousdownload.py:281-326 | the operations performed by a job, wherever it stops, are the first `StagesRun` of the six-operation pipeline, in pipeline order |
| Downloader.TempAfter | bilifavirousdownload.py:324-328 | the temporary directory after a job; bound to the method by `Downloader.BilibiliDownloader.DownloadVideo` |
| Downloader.BilibiliDownloader.constructor | bilifavirousdownload.py:37-42 | the in-memory ledger starts as the keys loaded from the history file |
| Downloader.BilibiliDownloader.SaveDownloadEntry | bilifavirousdownload.py:87-106 | the history file becomes `Saved(old file, record, how the rewrite ended)`, whose cases `Ledger.Saved` states |
| Downloader.BilibiliDownloader.RecordDownload | bilifavirousdownload.py:319-321 | the entry is saved and the key added to memory, keeping every key of the file known in memory |
| Downloader.BilibiliDownloader.DownloadVideo | bilifavirousdownload.py:279-330 | the call returns True iff the key was already known (no operation performed; by `Valid`, every key in the history file is such a key) or the job reaches the end; it stops at the first failing stage; its operations are the prefix `Trace`; `downloaded` and the file gain the key only on success; temporaries are untouched before the fetches, removed after them, and left behind when ffmpeg's non-zero exit raises |
| Downloader.BilibiliDownloader.ResolveAndFetch | bilifavirousdownload.py:302-326 | unusable URLs (missing or empty) end the job before any fetch; otherwise it stops as the fetch stages say |
| Downloader.BilibiliDownloader.FetchMergeRecord | bilifavirousdownload.py:307-326 | video fetch, audio fetch and merge run in that order up to the first failure; only a merge success records the key; both temporaries are removed unless the merge raised |
| Interactive.SortDesc | bilifavirousdownload.py:368 | the descending insertion sort of the ranks; specified by `Interactive.SortDescSpec` |
| Interactive.SortDescSpec | bilifavirousdownload.py:368 | `sorted(..., reverse=True)` of the ranks is descending and a permutation of them |
| Interactive.Listing | bilifavirousdownload.py:368 | `sorted(qualities.items(), key=..., reverse=True)` as the ranks it lists; specified by `Interactive.SortDescSpec` and used by `Interactive.QualityAnswerSpec` |
| Interactive.QualityAnswer | bilifavirousdownload.py:374-383 | what one typed line does; specified by `Interactive.QualityAnswerSpec` and `Interactive.QualityByPosition` |
| Interactive.QualityAnswerSpec | bilifavirousdownload.py:372-383 | an accepted line gives one of the catalogue's ranks; a blank line gives the highest rank; any other line is accepted iff `int()` reads it as a number `n` from 1 to the number of ranks, and then gives the `n`-th rank of the descending listing, no higher than those before it and no lower than those after it |
| Interactive.QualityByPosition | bilifavirousdownload.py:369-380 | typing the position printed beside a rank selects that rank |
| Interactive.SelectQuality | bilifavirousdownload.py:365-383 | the result is the answer of the first accepted line, every earlier line being rejected, and a rank of the catalogue; an empty catalogue or exhausted input, the `IndexError` or `EOFError` that ends the program, gives no answer |
| Interactive.ParseNumbers | bilifavirousdownload.py:398 | the list comprehension; specified by `Interactive.ParseNumbersSpec` |
| Interactive.ParseNumbersSpec | bilifavirousdownload.py:398 | the list comprehension succeeds iff every piece converts, and then holds each piece's number in order |
| Interactive.IsQuit | bilifavirousdownload.py:394 | the quit test; its use is stated by `Interactive.FolderAnswerSpec` (the empty answer iff the line is `q` or `Q`) |
| Interactive.Ids | bilifavirousdownload.py:400 | the ids of the chosen positions, in typed order; stated by `Interactive.FolderAnswerSpec` and `Interactive.FolderByPositions` |
| Interactive.FolderAnswer | bilifavirousdownload.py:393-403 | what one typed line does; specified by `Interactive.FolderAnswerSpec` and `Interactive.FolderByPositions` |
| Interactive.FolderAnswerSpec | bilifavirousdownload.py:392-403 | an accepted line gives the empty list iff it is `q`; otherwise one id per comma-separated piece, each the id of a listed folder |
| Interactive.FolderAnswerPositions | bilifavirousdownload.py:397-400 | a line other than `q` is accepted iff every stripped comma-separated piece is read by `int()` as a number from 1 to the number of folders; the `k`-th id is then the id of the folder at the `k`-th typed position |
| Interactive.FolderByPositions | bilifavirousdownload.py:389-400 | typing positions as printed, joined by commas, selects those folders' ids in typed order |
| Interactive.SelectFolders | bilifavirousdownload.py:386-403 | the result is the answer of the first accepted line, every earlier line being rejected (`AllRejected`); exhausted input, the `EOFError` that ends the program, gives no answer |
| Interactive.Prompt | bilifavirousdownload.py:373-383 | the shared `while True` loop stops at the first line its answer function accepts and returns that answer |

## Left out

- Every request, the JSON decoding, file reads and writes, the streaming of chunks, `tqdm`, logging, `time.sleep` and the ffmpeg process are oracles: the model states what the core does with each possible outcome.
- `Config`, `__post_init__`, cookie parsing, session set-up, `get_user_folders`, `get_video_info`'s request and `main` are not part of this model; `get_video_info` appears only as its possible results (`Downloader.ViewReply`).
- The creation of the save and temporary directories is not modelled; paths are sequences of components.
- Fields with unexpected JSON types, such as an unhashable `bvid` or a `cid` that is not an integer, are not modelled: each record field is either present with the expected type or absent.
- A key error while reading `video_info["title"]`, `pages`, a page's `cid` (line 294) or the matching page's `part` (line 299) is folded into `ViewReply.Unavailable`. In the source each reaches the outer `except` and returns False without touching any state, as `NoInfo` does.
- Interactive.SelectQuality: the source takes the `qualities` dict; the model takes its items as a sequence, since only their ranks and order matter.
- Interactive.SelectQuality: for an empty catalogue the source raises `IndexError` at `sorted_qn[0]`; the model returns `None` with no line read.
- Interactive.IsQuit: `selection.lower() == "q"` is modelled as the two strings `q` and `Q`, the only ones that lower-case to `q`.
- Interactive.Prompt: running out of input is the `EOFError` of `input()`, which neither prompt nor `main` catches, so the program ends there; the model returns `None` instead and does not model the program's end.
- Interactive.QualityAnswerSpec: states the listing order non-strictly (`>=`); the dict's keys are distinct, so the order is in fact strict.
- Interactive.SelectQuality, Interactive.SelectFolders: `print` output is not modelled.
- Fetch.DownloadMedia: the `unlink` of line 250 is assumed to succeed. If it raises (a locked file, say), the error escapes the `except` handler and `download_video` returns False at line 328 with the partial file still there.
- Downloader.BilibiliDownloader.DownloadVideo: the `unlink` calls of lines 324-325 are assumed to succeed. If one raises after a recorded job, the source returns False although the key was saved and added, where the model's `ok` is true; the temporary files then also stay.
- Pagination.GetPaginatedData: the answers are a finite sequence and every request past its end fails, so the model always stops; the source's `while True` (line 145) never stops while the server keeps sending full pages.
- Fetch.DownloadMedia: the content-length header and partial file contents are not modelled; only whether a file is at the path is tracked.
