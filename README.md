# video_utils, modelled in Dafny

This project models the core of `video_utils`, a small Python toolkit. The
toolkit caches facts about a video file and detects shot boundaries and fades
in it. The model covers four parts:

- **`Video`** (module `VideoCache`, file `video.dfy`)
  - A per-file cache record with a status lattice: initiated, meta collected,
    processed, postprocessed, errored, defective.
  - A cache key derived from the file's path.
  - Lazily computed metadata. Fps, frame count, size, variable frame rate,
    frame timestamps, rotation and creation date are memoised in `meta` once
    computed. Duration is recomputed from fps and frame count on every read.
    The GoPro flag is memoised only when it is known.
  - Pickled meta and data files, with `save_meta`, `set_status`,
    `load_meta_and_status`, `save_data`, `load_data`, `update_data`, `data`
    and `get_data`.
  - The pickle files live in a `PickleStore` object: a map from file path to
    stored record.
  - The capture and the probe tools (`mediainfo`, `ffprobe`) are a `Source`
    value: the answers they would give.
- **`VideoReader`** (module `VideoReading`, file `video_reader.dfy`)
  - The producer (`read_video`) decodes frames from `start_frame` to
    `end_frame` into a queue.
  - The consumer (`generator` through `next_thread`) pulls from that queue
    and yields every `skip_rate`-th frame.
  - `__len__` gives the number of yields.
  - The producer runs to completion before the consumer starts. The outcome
    of a GoPro capture that keeps returning no frame is `Spins`. A consumer
    that would wait forever reports `blocked`.
- **`SceneDetector`** (module `Scenes`, file `scenes.dfy`)
  - Per-frame brightness means over an 8×8 grid of crops.
  - The five-frame fade labeller (`get_fade`).
  - The changed-cell threshold between consecutive frames.
  - The three-pass run-length clean-up of the boundary sequence
    (`postprocess`).
  - The reading loop of `process`.
- **utilities** (module `Utils`, file `utils.dfy`)
  - `frame_skip_ratio` and `find_min_possible_fps`.
  - `YamlLinker`, which replaces `@a.b.c` references in a configuration
    document by the value they point to.

Two shared modules support these. `Common` (`common.dfy`) holds Option,
Result and the exceptions as an `Error` datatype. `Text` (`text.dfy`) holds
the Python string operations the code uses, written out on `seq<char>`.

Every Python exception the core lets escape becomes an `Err(...)` or
`Failed(...)` result. The exceptions to this are listed under "## Left out":
the cases that preconditions exclude (`Scenes.Threshold`,
`Scenes.Disjunction`, `Scenes.GetFade`, `Utils.GetValue`), `cache_dir=None`,
and writes to the pickle store that fail because the cache directory is missing.

Three behaviours of the code that a reader may not expect are modelled as
written:

- **Changed-cell threshold.** `threshold` compares the difference with
  `min(a, b) * threshold`. So 100 against 92 at 0.08 counts as changed
  (`Scenes.CellChangedFacts`).
- **Fade labels.** Label 1 means all darken and label 2 means all brighten.
  `flash_list` keeps the 1s and `fade_list` marks the 2s.
- **`save_meta`.** It pickles the status before raising it. A reload
  therefore sees the status as it was before the raise.

## Model

| member | source | states |
|---|---|---|
| `VideoCache.RaisedStatus` | video.py:91 | the status after collecting meta is at least `META_COLLECTED` and at least the old status, and is one of the two |
| `VideoCache.StatusLattice` | video.py:17-22 | raising moves `INITIATED` to `META_COLLECTED` and leaves every later status (including `ERRORED` and `DEFECTIVE`) as it is; raising twice is raising once |
| `VideoCache.CacheKey` | video.py:30-32 | the cache key never contains '/' |
| `VideoCache.CacheKeyBelowRoot` | video.py:30-32 | a file below the root gets its relative path with every '/' turned into '.' |
| `VideoCache.CacheKeyOfBareName` | video.py:30-32 | with no root and a bare file name, the key is the name without its first character |
| `VideoCache.BareNamesCollide` | video.py:30-35 | two bare names differing only in their first character share their meta and data files |
| `VideoCache.NestedAndDottedCollide` | video.py:30-35 | `dir/name` and `dir.name` below the same root share their cache files |
| `VideoCache.Trunc` | video.py:172 | `int(x)` truncates toward zero, bounded on both sides |
| `VideoCache.DurationOf` | video.py:175-178 | duration times fps gives the frame count; zero fps gives duration 0; a non-negative count gives a non-negative duration |
| `VideoCache.RotationOf` | video.py:239-254 | the rotation is 0, 90, 180 or 270; no output gives 0; an undecodable output raises; any other angle gives 0 |
| `VideoCache.VariableFpsOfFraction` | video.py:214-224 | a rate `n/d` is variable exactly when `d` is neither 1 nor 1001 |
| `VideoCache.VariableFpsExamples` | video.py:223 | `30000/1001` and `25/1` are constant; `90000/3001` and `25` (no '/') are variable; a rate ending in '/' raises |
| `VideoCache.VariableFpsOfBareRate` | video.py:223 | a rate with no '/' is read as its own denominator: variable unless it is 1 or 1001 |
| `VideoCache.GoproOf` | video.py:204-208 | the GoPro flag is unknown exactly when there is no encoder tag; otherwise it is whether the lower-cased encoder contains "gopro" |
| `VideoCache.ProbeDatetime` | video.py:271-281 | a successful probe gives a 19-character datetime |
| `VideoCache.DatetimeOf` | video.py:256-292 | the datetime is always 19 characters long and free of '-' |
| `VideoCache.DatetimeMeaning` | video.py:256-292 | with no creation time, the result is `1970:01:01 00:00:00`; with a long enough one, it is its first 19 characters with '-' and 'T' replaced |
| `VideoCache.DatetimeWithDate` | video.py:276-278 | a short creation time is completed by the `date` tag, joined with a space |
| `VideoCache.DatetimeExample` | video.py:271-281 | an ISO timestamp with 'T' and '-' becomes the EXIF-style `2019:05:04 10:11:12` |
| `VideoCache.FramesTimecodesOf` | video.py:226-237 | one timestamp per packet of stream 0 |
| `VideoCache.FramesTimecodesAppend` | video.py:235 | the timestamps of concatenated packet lists concatenate, and an error in the first part wins |
| `VideoCache.FramesTimecodesSingle` | video.py:235 | other streams are skipped; a stream-0 packet without a timestamp raises |
| `VideoCache.MemoisedCapture` | video.py:163-190 | once fps, frame count, width or height has been computed, later reads return it from `meta` without touching the capture |
| `VideoCache.MemoisedProbes` | video.py:157-292 | once a probe-based property has been computed, later reads return it unchanged from `meta` |
| `VideoCache.GoproUnknownIsRecomputed` | video.py:192-212 | an unknown GoPro flag is stored as None and so is probed again on the next read |
| `VideoCache.DefectiveIff` | video.py:49-52 | a freshly opened video is defective exactly when its fps or its duration is below the minimum |
| `VideoCache.CaptureStepFacts` | video.py:69-74 | after the capture part of `save_meta`, fps, frame count, duration, width and height are all in `meta` |
| `VideoCache.ProbesStepFacts` | video.py:75-80 | after the probe part of `save_meta`, every probe-based field is in `meta` |
| `VideoCache.CollectMetaFills` | video.py:68-91 | a successful `save_meta` leaves every meta field filled |
| `VideoCache.UpdatedMeaning` | video.py:128-136 | "full" overwrites the key; "last" starts a one-element list or appends to an existing list; appending to a non-list raises |
| `VideoCache.LoadDataSpec` | video.py:114-120 | loading data never changes the stored files |
| `VideoCache.DataReadStable` | video.py:141-145 | reading `data` twice gives the same state and result as reading it once |
| `VideoCache.UpdateThenRead` | video.py:122-139 | after a saved update, reading `data` gives the old data with that key updated |
| `VideoCache.UpdateDataEarlyExits` | video.py:122-126 | an unknown add type raises; a None value changes nothing |
| `VideoCache.LookupAllAppend` | video.py:147-155 | looking up the keys of `a + b` gives the lookups of `a` followed by those of `b`, each missing key giving None |
| `VideoCache.Video.constructor` | video.py:24-52 | the cache file paths come from the key; a cached video whose meta file holds a meta record takes its meta and status from it, without a capture; otherwise the capture is open and the status is `DEFECTIVE` exactly when fps or duration is below the minimum, else `INITIATED` |
| `VideoCache.Video.MediaInfo` | video.py:157-161 | `mediainfo` as its step function: computed once, then memoised |
| `VideoCache.Video.Fps` | video.py:163-167 | `fps` from the capture, memoised; raises once the capture is released |
| `VideoCache.Video.FrameNum` | video.py:169-173 | `frame_num`, truncated to an int, memoised |
| `VideoCache.Video.Duration` | video.py:175-178 | `duration` is frame count over fps, recomputed on every read from the memoised fps and frame count |
| `VideoCache.Video.Width` | video.py:180-184 | `width` from the capture, memoised |
| `VideoCache.Video.Height` | video.py:186-190 | `height` from the capture, memoised |
| `VideoCache.Video.IsGopro` | video.py:192-212 | `is_gopro` from the encoder tag, memoised only when known |
| `VideoCache.Video.IsVariableFps` | video.py:214-224 | `is_variable_fps` from ffprobe's frame rate, memoised |
| `VideoCache.Video.FramesTimecodes` | video.py:226-237 | `frames_timecodes` from ffprobe's packets, memoised |
| `VideoCache.Video.Rotation` | video.py:239-254 | `rotation` from ffprobe's rotate tag, memoised |
| `VideoCache.Video.Datetime` | video.py:256-292 | `datetime` from mediainfo's tags, memoised |
| `VideoCache.Video.ReadCapture` | video.py:69-74 | the capture part of `save_meta`; only `meta` changes |
| `VideoCache.Video.ReadProbes` | video.py:75-80 | the probe part of `save_meta`; only `meta` changes |
| `VideoCache.Video.SaveMeta` | video.py:68-91 | on success the meta file holds the full meta with the status from before the raise, the capture is released, and the status is raised; on failure nothing but `meta` changes |
| `VideoCache.Video.SetStatus` | video.py:93-96 | the status is set; with `save`, `save_meta` runs after it and on success stores and raises the new status |
| `VideoCache.Video.LoadMetaAndStatus` | video.py:98-106 | a missing meta file fails its assertion; a meta record is loaded (true); any other content leaves the state and gives false |
| `VideoCache.Video.SaveData` | video.py:108-112 | the data is written to the data file and the video counts as cached |
| `VideoCache.Video.LoadData` | video.py:114-120 | a missing data file changes nothing; a stored dict replaces the data and clears the cached flag; any other content raises |
| `VideoCache.Video.Data` | video.py:141-145 | a cached video reloads its data file first |
| `VideoCache.Video.UpdateData` | video.py:122-139 | the new data state is that of the update specification, including its early exits and the save |
| `VideoCache.Video.GetData` | video.py:147-155 | no keys gives an empty list; otherwise one lookup per key, unwrapped for a single key; a failing read of `data` raises `RuntimeError` |
| `VideoReading.ProduceFrames` | video_reader.py:52-69 | the queued frames are exactly the images read, in order; there are never more than `end_frame - start_frame`, and all of them exactly when the loop finished normally |
| `VideoReading.ProduceEnd` | video_reader.py:52-77 | an empty read ends the loop unless GoPro; GoPro with no reads left spins; an exception ends with the read that raised it; without GoPro every read but the last gave a frame |
| `VideoReading.StopsAtEndFrame` | video_reader.py:52-68 | the loop stops at the end frame, skips empty reads for GoPro, and stops at the first empty read otherwise |
| `VideoReading.CeilDivStep` | video_reader.py:38-39 | `ceil(k / s)` rises by one exactly at multiples of `s` |
| `VideoReading.YieldsFromZero` | video_reader.py:25-36 | from counter 0 the generator yields `ceil(n / skip_rate)` items, and the j-th is the `j * skip_rate`-th pulled frame |
| `VideoReading.PulledSplit` | video_reader.py:84-98 | pulling n frames and then m more, the second run starting where the queue was left, gives the same items as pulling n + m at once |
| `VideoReading.DecodeFrames` | video_reader.py:46-69 | the decoding loop's frames and outcome are those of the producer specification `Produce` |
| `VideoReading.VideoReader.constructor` | video_reader.py:13-23 | a new reader starts with counter 0, an empty queue and a live, unfinished worker |
| `VideoReading.VideoReader.ReadVideo` | video_reader.py:46-77 | the queue gets the produced frames appended; `done` is set unless the producer spins; the reader stays alive only while it spins |
| `VideoReading.VideoReader.NextThread` | video_reader.py:84-98 | first-in first-out: a non-empty queue gives its head; an empty queue gives None when the worker has ended, and waits otherwise |
| `VideoReading.VideoReader.Generator` | video_reader.py:25-36 | the yields are every `skip_rate`-th of the pulls from the current counter up to `frame_num`; the generator blocks exactly when a live worker's queue runs dry first |
| `VideoReading.Open` | video_reader.py:13-23 | a zero target fps raises `ZeroDivisionError`; otherwise the reader gets `frame_skip_ratio`'s skip rate, end frame `frame_num` when none is given, and the GoPro flag when it is true |
| `VideoReading.FreshReaderYieldsLen` | video_reader.py:38-39 | from a zero counter with the worker ended, the generator's `frame_num` pulls yield exactly `Len()` = `__len__` = `ceil(frame_num / skip_rate)` items |
| `Scenes.RunOfIndex` | scenes.py:53-57 | every position of a maximal run has that run as its run |
| `Scenes.RewriteGroup` | scenes.py:50-77 | a rewritten group keeps its length, and each position gets the value its pass gives |
| `Scenes.ApplyPass` | scenes.py:53-75 | one `groupby` pass rewrites each maximal run as a group, giving `PassResult` |
| `Scenes.GroupOfRun` | scenes.py:53-75 | the pass result on a maximal run equals rewriting that run as one group |
| `Scenes.Postprocess` | scenes.py:50-77 | the output is the three passes in turn (`Cleaned`) |
| `Scenes.DebounceKeepsFirstOne` | scenes.py:53-57 | pass 1 drops a 1 exactly when the previous value is 1, so no two 1s stay adjacent |
| `Scenes.FillGapsLeavesLongZeroRuns` | scenes.py:59-64 | pass 2 only turns 0s into 1s, and every run of 0s that is left is longer than the shot length |
| `Scenes.RecollapseRun` | scenes.py:66-75 | pass 3 keeps the first 1 of each run of 1s, plus its last 1 when the run is longer than the shot length |
| `Scenes.PassOfRepeat` | scenes.py:53-75 | a constant sequence is rewritten as one group |
| `Scenes.PassOfOneThenZeros` | scenes.py:53-75 | every pass on a 1 followed by zeros, in closed form |
| `Scenes.PassOfTwoOnes` | scenes.py:53-75 | every pass on two 1s separated by a gap of zeros, in closed form |
| `Scenes.CleanedRunOfOnes` | scenes.py:50-77 | a run of n >= 2 ones cleans to a leading 1 and 0s, with a trailing 1 kept only when n is exactly the shot length plus one |
| `Scenes.CleanedTwoOnes` | scenes.py:50-77 | two 1s with g 0s between them merge into one 1 when g + 2 <= shot length; otherwise both survive |
| `Scenes.CleanedRunExamples` | scenes.py:50-77 | with shot length 7: seven ones clean to one boundary, eight to two, and nine to one |
| `Scenes.CleanedIdempotent` | scenes.py:50-77 | for any shot length of at least 2, cleaning a cleaned sequence again changes nothing |
| `Scenes.CleanedNotIdempotentAtShotLengthOne` | scenes.py:50-77 | with shot length 1, `[0, 1, 0, 0]` cleans to `[1, 1, 0, 0]`, which cleans again to `[1, 0, 0, 0]` |
| `Scenes.CellBits` | scenes.py:83-85 | one 0/1 bit per cell |
| `Scenes.SumOfBits` | scenes.py:85 | the sum of a 0/1 list counts its 1s |
| `Scenes.ChangedCellsCount` | scenes.py:83-85 | the summed bits count exactly the changed cells |
| `Scenes.Candidates` | scenes.py:79-86 | one 0/1 candidate per consecutive pair of frames |
| `Scenes.CandidateMeaning` | scenes.py:79-86 | frame pair i is a candidate exactly when at least `number` cells changed by more than the threshold times the smaller value |
| `Scenes.CellChangedFacts` | scenes.py:84 | an unchanged cell never counts; 100 against 92 at 0.08 does |
| `Scenes.Threshold` | scenes.py:79-86 | the loop's result is `Candidates` |
| `Scenes.Disjunction` | scenes.py:88-92 | element-wise "either is positive"; on 0/1 lists, "either is 1" |
| `Scenes.GetFade` | scenes.py:94-121 | the label is 0, 1 or 2 |
| `Scenes.GetFadeMeaning` | scenes.py:94-121 | label 2 exactly when all four steps brighten; label 1 exactly when all darken and not all brighten |
| `Scenes.FadeLabelOfBrightness` | scenes.py:94-121 | for non-negative brightness, darkening and brightening exclude each other: 1 is all-darken, 2 is all-brighten, 0 is neither |
| `Scenes.FadeExamples` | scenes.py:94-121 | a falling ramp is labelled 1, a rising ramp 2, and a dip 0 |
| `Scenes.FlashList` | scenes.py:147 | the flash list never holds a 2 |
| `Scenes.FadeList` | scenes.py:148 | the fade list is a 0/1 list |
| `Scenes.FlashFadeSplit` | scenes.py:147-148 | the flash list marks the 1-labels and the fade list the 2-labels, and together they rebuild the labels |
| `Scenes.AnchorBounds` | scenes.py:36-39 | the crop anchors run from 0 to the padding, in order |
| `Scenes.Crops` | scenes.py:40-46 | there are 64 crops |
| `Scenes.CropsInside` | scenes.py:27-48 | every crop lies inside the image and measures an eighth of it, rounded down, in each direction; crops in one row share their top edge, crops in one column their left edge |
| `Scenes.PrepareImage` | scenes.py:27-48 | the nested loop produces `Crops`, line by line |
| `Scenes.GridIndex` | scenes.py:40-46 | crop number `line * 8 + column` is at that line and column |
| `Scenes.CropMeans` | scenes.py:135-136 | one mean per crop |
| `Scenes.MeasureCrops` | scenes.py:135-136 | the per-crop means of a frame are `CropMeans` |
| `Scenes.FadeLabels` | scenes.py:123-139 | the labels start with four zeros and then have one label per frame from the fifth on |
| `Scenes.FadeLabelsAt` | scenes.py:123-139 | from the fifth frame on, the label of frame k is `get_fade` of means k-4 to k |
| `Scenes.Window` | scenes.py:131-134 | the sliding window holds at most four means |
| `Scenes.WindowStep` | scenes.py:131-134 | appending a mean to a full window drops its oldest |
| `Scenes.LabelsStep` | scenes.py:131-134 | each frame from the fifth on adds the label of the five-mean window |
| `Scenes.ReadStep` | scenes.py:127-139 | one iteration of the reading loop keeps window, labels and crop means consistent with the frames read |
| `Scenes.SceneDetector.constructor` | scenes.py:11-25 | a new detector starts with empty lists and four zero labels |
| `Scenes.SceneDetector.ReadFrames` | scenes.py:127-139 | reads every frame; afterwards the window, labels and crop means are those of all frames read |
| `Scenes.SceneDetector.Process` | scenes.py:123-152 | the flash and fade lists split the labels, and the boundaries are `Cleaned(Candidates(crop means, 0.08, 20), 7)` |
| `Utils.FrameSkipRatio` | utils.py:64-65 | the ratio is at least 1, it is floor(input / target) when that is at least 1, and a zero target raises |
| `Utils.SkipRatioMeaning` | utils.py:64-65 | keeping every skip-th frame stays at or above the target rate, and skipping one more would fall below it |
| `Utils.SkipRatioExamples` | utils.py:64-65 | 30 and 10 fps against 25 give 1; 60 gives 2 |
| `Utils.FindMinPossibleFps` | utils.py:68-73 | a rate of at most 25 is kept; a higher one is halved into [25, 50); the result is always the input over a power of two |
| `Utils.Find` | utils.py:81 | the lookup finds an entry with that key, or there is none |
| `Utils.GetValueAppend` | utils.py:80-86 | `GetValue`, the model of `get_value`: indexing along a longer path is indexing along its prefix, then along the rest |
| `Utils.FindEndValue` | utils.py:88-93 | a resolved value is never a reference, and a non-reference resolves to itself |
| `Utils.FollowLink` | utils.py:88-91 | `@a.b.c` is looked up as `d['a']['b']['c']`, and the value found is followed again |
| `Utils.EndValueIsFinal` | utils.py:88-93 | resolving an end value again gives it back |
| `Utils.SelfLinkNeverResolves` | utils.py:88-91 | a reference to itself never resolves and hits the recursion limit |
| `Utils.ChainResolves` | utils.py:88-93 | a chain of two references ends at the plain value |
| `Utils.SetAtSame` | utils.py:95-100 | writing back the value at a position leaves the document unchanged |
| `Utils.SetAtEntry` | utils.py:95-100 | updating one entry of a nested dict in place rewrites exactly that entry |
| `Utils.YamlLinker.constructor` | utils.py:77-78 | the linker holds its own copy of the document |
| `Utils.YamlLinker.SetLinks` | utils.py:95-100 | succeeds exactly when `LinkFrom` (the walk over the entries in order, entering nested dicts and replacing each string by its end value in the document as rewritten so far) succeeds, leaves exactly its document, and fails with its error; on success the dict keeps its keys in order, every reference becomes a non-reference, and other strings, lists and scalars stay |
| `Utils.YamlLinker.Call` | utils.py:102-104 | returns `Linked(doc)`: a document that is not a dict raises, otherwise the result of `set_links` on the whole document, which is also the linker's own document, resolved throughout |
| `Utils.LinkedSeesEarlierRewrites` | utils.py:95-100 | a reference resolves against the document as already rewritten: after `a: @b` has become 5, `c: @a` needs a single step |

## Left out

- Decoding and pixels are not modelled.
  - `cv2` frame decoding, `cv2.resize` (`size`), `cvtColor` and `np.mean` are outside the model.
  - A frame is an opaque value, with its grey mean and its region means given (`Scenes.Frame`).
- `process` only writes or prints some results: the pickle and JSON dumps and the `print` calls. These are not modelled; the model keeps the values.
- The capture properties that `SceneDetector.__init__` reads (frame count, width, height, fps) are not modelled. `process` only prints `frame_num`, and the other three are unused.
- Threads and timing are not modelled.
  - The producer thread runs in full before the consumer, so interleavings are not covered.
  - Also not covered: the start delay, the `sleep` calls, the `stats` timing, the queue's `buffer_maxsize` and a producer blocked on a full queue.
  - A consumer that would wait forever is reported as `blocked`.
  - A GoPro producer that keeps reading nothing is reported as `Spins`.
- The capture's `set(1, start_frame)` seek is modelled as the sequence of reads starting at `start_frame`.
- `VideoReader` takes the video's fps, frame count and GoPro flag as values. Reading them through `Video` would memoise them in `meta`, and that side effect is not modelled here.
- Floating point is modelled as exact reals.
  - Rounding in `int(pad / (n - 1) * i)`, in fps division, in the halving of `find_min_possible_fps` and in `ceil(frame_num / skip_rate)` is not modelled.
  - NaN and infinities are not modelled.
- External tools are modelled by their answers.
  - `mediainfo` and `ffprobe` become the answers in `Source`.
  - JSON decoding becomes an optional decoded value.
  - ffprobe's `err` is always None because stderr is not captured, so its `RuntimeError` branches are not modelled.
- Writes to the pickle store always succeed. In Python `open(..., 'wb')` in `save_meta` and `save_data` raises when the cache directory is missing, since nothing creates it. After such a failure `save_meta` neither releases the capture nor raises the status.
- The pickle format is not modelled. A file holds a meta record, a data record or something else (`Unreadable`).
- `VideoCache.LoadDataSpec` and `VideoCache.Video.LoadMetaAndStatus`: a meta record at the data path, or a data record at the meta path, is treated as unreadable. Python would load the pickled list into `_data`, or unpack a two-key dict into meta and status. Neither can happen in the program, because the `.meta` and `.data` paths never coincide.
- `cache_dir=None` makes `os.path.join` raise `TypeError`. The model takes the cache directory as a string.
- `str.lower` is modelled on ASCII letters only.
- `Text.ParseInt`: accepts an optional sign and ASCII digits only. Python's `int()` also accepts surrounding whitespace and `_` between digits; the frame-rate fields it parses here hold neither.
- `Video.get_data` is modelled with a list of keys. A single string argument is the one-key list.
- `Scenes.Threshold`: requires each row to be no longer than the next one. Python raises `IndexError` otherwise, and `process` always passes 64-cell rows.
- `Scenes.CleanedIdempotent`: requires a shot length of at least 2. With shot length 1 cleaning twice can change the result (`Scenes.CleanedNotIdempotentAtShotLengthOne`); `process` uses 7.
- `Scenes.GetFade`: requires exactly five means. Python's five-name unpack raises `ValueError` for any other length, and `process` always passes five.
- `Utils.GetValue`: requires a non-empty path. `path.pop(0)` raises `IndexError` on an empty one, and `find_end_value` always passes the result of `split('.')`, which is never empty.
- `Scenes.Disjunction`: requires the second list to be at least as long as the first. Python raises `IndexError` otherwise. `process` does not call it.
- `YamlLinker` is modelled on values.
  - A reference that resolves to a dict or list is copied. In Python it is shared with its target, so a later in-place rewrite would show in both places.
  - `get_value`'s `path.pop(0)` is modelled as a pure function, since the list is a fresh one.
  - The recursion limit is a fuel bound (`limit`).
  - Dict keys are strings only. A YAML mapping with integer, boolean or null keys cannot be represented.
- `frame_info.py` and the rest of `utils.py` (hashing, file listing) are not part of this model.
