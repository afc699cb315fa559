# lutris-coverup, modelled in Dafny

lutris-coverup fills in missing artwork for a Lutris game library. The command
`cli` reads every game slug from Lutris' `pga.db`. For each asset kind the
target selects, it decides whether the slug's asset file is missing:

- covers at `{lutris}/coverart/{slug}.jpg`;
- banners at `{lutris}/banners/{slug}.jpg`;
- icons at `{icons}/lutris_{slug}.png`.

It collects one list of missing slugs per kind and logs a "No missing ..."
notice when nothing is missing. It then calls the fetchers in the fixed order
covers, banners, icons.

Each fetcher (`fetch_cover_art`, `fetch_banners`, `fetch_icons`) walks its list
in order:

- it searches SteamGridDB for the slug and stops the whole loop on the first
  empty search;
- it skips a slug whose image set is `None`;
- otherwise it downloads the first image to the asset path, post-processes it
  and saves it over the same file.

Post-processing depends on the kind:

- covers are stretched to 264x352, cropped to 600x800 and then scaled, or
  saved as downloaded;
- banners get the first logo thumbnailed into 0.7 of their width and pasted in
  the centre, and are then stretched or cropped (1653x620) to 184x69;
- icons are thumbnailed into 128x128, whatever resize mode was asked for.

The project has six modules.

- `Wrappers` holds `Option` and `Result`.
- `Enums` holds `ResizeMethod`, `AssetType` and the asset kinds, taken from
  `enums.py`.
- `Paths` models the pathlib operations the scanner and the fetchers share:
  `joinpath` and `with_suffix`, giving `AssetPath`. Paths are lists of
  components under the root. `with_suffix` replaces a slug's own dotted tail
  and raises `ValueError` on an empty name.
- `Images` models image geometry: resize, crop, Pillow's `thumbnail` rounding,
  and the paste box of the logo. An image is its size plus a record of where
  its pixels came from.
- `Fetch` models the three fetch loops as methods over a `Disk` class. The
  disk's `files` map and its log of `writes` are updated in place. Each loop is
  proved against `RunFetch`, a function over the catalog, which is a datatype
  of functions.
- `Cli` models the scan loop as a `for` loop method proved against
  `ScanResult`, and the fetcher dispatch as a method proved against `CliSpec`.
  Reference definitions (`Slugs`, `MissingOf`, `NothingMissing`) state what
  the lists and the notice mean.

Three corner cases of the fetch loops, as the code has them:

- An image set that is `None` skips the slug. An image set that is an empty
  list is not guarded: `[0]` raises `IndexError` (`fetch.py:41`, `74`, `148`)
  and ends the run.
- A fetcher's exception is not caught, so no later fetcher runs. The model
  records it as a `Crashed` status on the last call.
- A banner is written to its asset path (`fetch.py:77-78`) before the logo is
  handled. When the logo list is empty (`[0]` at `fetch.py:88`) or the banner
  is one pixel wide (the logo thumbnail at `fetch.py:93-95` fails), the
  exception leaves the raw download at the asset path. The same happens when
  `paste` (`fetch.py:97-112`) rejects a logo whose mode cannot serve as its own
  mask, such as a palette or RGB logo; the model does not capture that case
  (see "Left out"). The next scan counts that banner as present, so it is never
  retried.

## Model

| member | source | states |
|---|---|---|
| Cli.DirsOf | src/lutris_coverup/cli.py:79-83 | the cover directory's components are the Lutris path's followed by `coverart`, the banner directory's the Lutris path's followed by `banners`, and the icon directory is the icon path as given |
| Cli.Check | src/lutris_coverup/cli.py:97-115 | one kind's test in the scan loop equals `Mark`: skipped when the target does not select the kind, `BadPath` when `with_suffix` raises, and the slug appended exactly when no file exists at its asset path |
| Cli.ScanOne | src/lutris_coverup/cli.py:94-115 | row i of the loop extends the result of the rows before it (`ScanRows` of one more row): a NULL slug raises, then covers, banners and icons are checked in that order |
| Cli.Scan | src/lutris_coverup/cli.py:85-115 | the three lists start empty and the loop over the query rows produces `ScanResult`: a failed query or the first bad row aborts, otherwise the lists are returned |
| Cli.ScanRowsStops | src/lutris_coverup/cli.py:128-130 | once a prefix of the rows raises, the whole scan returns that error |
| Cli.ScanFindsMissing | src/lutris_coverup/cli.py:94-115 | the scan succeeds iff the query succeeded and every row has a slug whose asset paths can be built; each list is then the in-order filter of the slugs (duplicates kept) on "path missing", and it is empty for kinds the target does not select |
| Cli.ScanListedIff | src/lutris_coverup/cli.py:97-115 | a slug is in a kind's list iff the target selects that kind, the slug is in the database, its asset path exists and no file is there |
| Cli.MissingOfMembers | src/lutris_coverup/cli.py:102-103 | membership in the reference filter is exactly "a slug whose asset path is not an existing file" |
| Cli.MissingOfEmpty | src/lutris_coverup/cli.py:117-126 | the filter is empty iff every slug whose asset path can be built has its file there (`AllPresent`) |
| Cli.NoticeFor | src/lutris_coverup/cli.py:117-126 | definition of the `if`/`elif` chain of notices; `Cli.NoticeIffNothingMissing` states which notice is logged when |
| Cli.NoticeIffNothingMissing | src/lutris_coverup/cli.py:117-126 | the "No missing ..." notice for the target is logged exactly when every list the target selects is empty; otherwise no notice is logged |
| Cli.Kinds | src/lutris_coverup/cli.py:139-144 | a kind is fetched iff the target is that kind or ALL |
| Cli.Dispatch | src/lutris_coverup/cli.py:139-144 | calls the kind's fetcher with its own list and directory, and icons with no resize mode; the disk changes by exactly that fetcher's writes |
| Cli.Invoke | src/lutris_coverup/cli.py:139-144 | one more fetcher call extends the calls made so far, and its writes extend the disk's write log |
| Cli.FetchMissing | src/lutris_coverup/cli.py:139-144 | the fetchers run in the order covers, banners, icons, only for selected kinds, and none runs after one raises; the disk holds exactly their writes in that order |
| Cli.CallsOfTarget | src/lutris_coverup/cli.py:139-144 | a single-kind target makes exactly one call; ALL makes covers, then banners, then icons, and stops after the first call that raises |
| Cli.CallsFrom | src/lutris_coverup/cli.py:139-144 | definition of the fetcher calls for the selected kinds, ending after the first that raises; `Cli.CallsOfTarget` and `Cli.CallsInOrder` state its meaning |
| Cli.CallsInOrder | src/lutris_coverup/cli.py:139-144 | the k-th call is for the k-th selected kind; only the last call can have raised, and fewer calls than kinds means the last one raised |
| Cli.Run | src/lutris_coverup/cli.py:79-144 | the whole command equals `CliSpec` on the files present before it ran, and the disk ends with exactly the report's writes |
| Cli.CliCalls | src/lutris_coverup/cli.py:128-144 | the run aborts iff the query fails or a row cannot be scanned, and an aborted run writes nothing; otherwise each call gets its kind's directory, mode and missing list, and its result is that fetcher's `RunFetch` |
| Cli.RerunSkipsProcessed | src/lutris_coverup/cli.py:94-115 | a slug whose asset a fetcher processed has a file at its asset path afterwards, so a second scan no longer lists it |
| Cli.CrashedBannerNotRetried | src/lutris_coverup/cli.py:104-108 | such a crashed banner is not listed as missing by the next scan, so it is never retried |
| Paths.Join | src/lutris_coverup/cli.py:98-110 | definition of `joinpath`: an absolute string replaces the directory, a relative one appends the components pathlib parses (empty and `.` segments dropped); `Paths.JoinKeepsDir` proves the directory stays a prefix |
| Paths.JoinKeepsDir | src/lutris_coverup/cli.py:105 | a relative string keeps the directory's components as a prefix of the joined path |
| Paths.WithSuffix | src/lutris_coverup/cli.py:110-112 | definition of `with_suffix`: `ValueError` on a path without a name, otherwise the last component's suffix (from its last dot, unless that dot starts or ends the name) is replaced; `Paths.WithSuffixSpec` states its meaning |
| Paths.WithSuffixSpec | src/lutris_coverup/cli.py:98-100 | `with_suffix` raises exactly on a path without a name; otherwise the path has the same length and the same parent components, and the new name is the old name's stem (up to its last dot, unless that dot starts or ends the name) followed by the new suffix |
| Paths.AssetPath | src/lutris_coverup/cli.py:97-115 | definition of the asset layout shared by the scanner and the fetchers (`fetch.py:42`, `75`, `149`); its properties are `Paths.AssetPathSuffix`, `Paths.PlainSlugPath`, `Paths.AssetPathUnderDir` and `Paths.DottedSlugSharesFile` |
| Paths.AssetPathSuffix | src/lutris_coverup/fetch.py:42 | an icon's asset path always builds, and every asset path that builds has a name ending in `.png` for icons and `.jpg` otherwise |
| Paths.PlainSlugPath | src/lutris_coverup/cli.py:98-100 | for a slug with no `/` and no dot, the asset path is the directory plus `{slug}.jpg` (or `lutris_{slug}.png` for icons) |
| Paths.PlainSlugsDistinctPaths | src/lutris_coverup/cli.py:97-115 | two different plain slugs never share an asset file |
| Paths.DottedSlugSharesFile | src/lutris_coverup/cli.py:98-100 | `with_suffix` replaces a dotted tail, so `a.t` and `a` map to the same asset file |
| Paths.AssetPathUnderDir | src/lutris_coverup/cli.py:97-115 | a slug that does not start with `/` builds its asset path without `with_suffix` raising, provided the directory is not the root, the kind is icons or the slug has a component; when the kind is icons or the slug has a component, the directory's components are a prefix of the asset path and the path is deeper; a cover or banner slug without components gives the directory's own path with its name's stem followed by `.jpg` |
| Images.Resize | src/lutris_coverup/fetch.py:157-160 | `resize((w, h))` gives exactly w by h |
| Images.CropImage | src/lutris_coverup/fetch.py:161-164 | `crop(box)` has the box's extent whatever the source size |
| Images.Fit | src/lutris_coverup/fetch.py:115-123 | definition of the resize branches: NONE keeps the image, STRETCH resizes it, CROP crops and then resizes; `Images.FitSize` and `Images.CropBeforeScale` state its meaning |
| Images.FitCover | src/lutris_coverup/fetch.py:157-167 | definition of the cover branches, with 264x352 and the cover crop box; `Images.TargetSizes` and `Images.CropBeforeScale` state its meaning |
| Images.FitBanner | src/lutris_coverup/fetch.py:115-123 | definition of the banner branches, with 184x69 and the banner crop box; `Images.TargetSizes` and `Images.CropBeforeScale` state its meaning |
| Images.FitSize | src/lutris_coverup/fetch.py:157-167 | STRETCH and CROP give exactly the target size; NONE leaves the image unchanged |
| Images.TargetSizes | src/lutris_coverup/fetch.py:12-17 | covers come out 264x352 and banners 184x69 under STRETCH or CROP |
| Images.CropExtents | src/lutris_coverup/fetch.py:119-164 | the banner crop `(133, 0, 1786, 620)` is 1653x620 and the cover crop `(0, 50, 600, 850)` is 600x800 |
| Images.CropBeforeScale | src/lutris_coverup/fetch.py:161-167 | under CROP the image is cropped first and then resampled |
| Images.Thumbnail | src/lutris_coverup/fetch.py:48 | definition of Pillow's `thumbnail` geometry: unchanged when the image fits, else the limiting side takes its bound and the other side is rounded; `Images.ThumbnailFits` and `Images.ThumbnailKeepsAspect` state its meaning |
| Images.ThumbnailFits | src/lutris_coverup/fetch.py:93-95 | `thumbnail` fails only on a zero width bound; its result fits the bound and is never larger than the input; an image that already fits is unchanged |
| Images.ThumbnailOfPositiveBound | src/lutris_coverup/fetch.py:48 | `thumbnail` with positive bounds never fails |
| Images.ThumbnailKeepsAspect | src/lutris_coverup/fetch.py:93-95 | a thumbnail that shrinks takes the limiting side's bound and rounds the other side to within one pixel of the original aspect ratio |
| Images.IconImage | src/lutris_coverup/fetch.py:48 | definition of `thumbnail((128, 128))` on the icon; `Images.IconFits` states its meaning |
| Images.IconFits | src/lutris_coverup/fetch.py:47-49 | an icon ends up at most 128x128, never enlarged, unchanged when it already fits, and otherwise keeps its aspect ratio |
| Images.HalfSpan | src/lutris_coverup/fetch.py:100-109 | Python's `int` of the float half-differences is the integer half; right minus left is the logo size |
| Images.PasteBox | src/lutris_coverup/fetch.py:97-111 | definition of the paste box with the source's float halving and `int()` truncation; `Images.PasteBoxCentred` proves it centred and of the logo's size |
| Images.PasteBoxCentred | src/lutris_coverup/fetch.py:97-111 | the paste box has left `(W-w)//2` and top `(H-h)//2`, is exactly the logo's size and lies inside the banner |
| Images.Paste | src/lutris_coverup/fetch.py:97-112 | pasting keeps the banner's size |
| Images.ComposeBanner | src/lutris_coverup/fetch.py:88-112 | definition: thumbnail the logo into `LogoBound` by the banner's height, then paste it at `PasteBox`; `Images.ComposeBannerCentresLogo` states its meaning |
| Images.ComposeBannerCentresLogo | src/lutris_coverup/fetch.py:88-112 | the composed banner keeps its size; the logo is shrunk within 0.7 of the banner's width and within its height, and is pasted centred; it fails only when that width bound is zero |
| Images.LogoBound | src/lutris_coverup/fetch.py:93-95 | the logo's width bound is the integer part of 0.7 times the banner's width: ten times it is at most 7W and more than 7W - 10 |
| Images.LogoBoundZero | src/lutris_coverup/fetch.py:93-95 | the logo's width bound is zero only for a one-pixel-wide banner |
| Fetch.Disk.Save | src/lutris_coverup/fetch.py:44-45 | a write replaces the whole file at its path and is appended to the write log |
| Fetch.ImageSet | src/lutris_coverup/fetch.py:143 | definition of which image set a kind asks for: grids for covers, heroes for banners (also `fetch.py:67-69`), icons for icons (`fetch.py:36`); `Fetch.ProcessedWritesTwice` and `Fetch.NoImagesSkipsOnlyThatSlug` state how the loop uses it |
| Fetch.Finish | src/lutris_coverup/fetch.py:80-125 | definition of post-processing per kind; `Fetch.SavedImageSize`, `Fetch.MissingLogoStillSaved` and `Fetch.IconsIgnoreResize` state its meaning |
| Fetch.PostProcess | src/lutris_coverup/fetch.py:80-125 | post-processing equals `Finish`: icon thumbnail, cover resize, or banner logo (raising on an empty logo list) then resize |
| Fetch.StepOf | src/lutris_coverup/fetch.py:130-170 | definition of one loop iteration (also `fetch.py:23-50` and `54-126`); `Fetch.NotFoundIff`, `Fetch.EmptyImageListRaises`, `Fetch.StepWritesPath` and `Fetch.ProcessedWritesTwice` state its meaning |
| Fetch.FetchSlug | src/lutris_coverup/fetch.py:54-126 | one iteration of the loop does `StepOf`: it stops on an empty search, skips a `None` image set, raises on an empty list, or writes the download and then the processed image to the asset path |
| Fetch.FetchLoop | src/lutris_coverup/fetch.py:54-59 | the loop over the slugs equals `RunSteps` of their steps: status, number searched, and the writes in order |
| Fetch.FetchAssets | src/lutris_coverup/fetch.py:130-135 | the shared loop equals `RunFetch` on status, searches, write log and files |
| Fetch.FetchCoverArt | src/lutris_coverup/fetch.py:129-170 | `fetch_cover_art` equals `RunFetch` for covers |
| Fetch.FetchBanners | src/lutris_coverup/fetch.py:53-126 | `fetch_banners` equals `RunFetch` for banners |
| Fetch.FetchIcons | src/lutris_coverup/fetch.py:22-50 | `fetch_icons` equals `RunFetch` for icons, which takes no resize mode |
| Fetch.NotFoundIff | src/lutris_coverup/fetch.py:24-28 | a slug's step is the break exactly when its search is empty |
| Fetch.RunStopsAtFirstMiss | src/lutris_coverup/fetch.py:23-28 | slugs are searched in order; the loop completes iff every slug continued; a stop happens at the first empty search and no later slug is searched |
| Fetch.RunIgnoresRest | src/lutris_coverup/fetch.py:130-135 | after a stop or an exception, slugs later in the list change nothing |
| Fetch.RunAppend | src/lutris_coverup/fetch.py:130 | a loop over `a + b` whose `a` part completed is the run over `a` followed by the run over `b` |
| Fetch.NoImagesSkipsOnlyThatSlug | src/lutris_coverup/fetch.py:145-146 | a `None` image set skips only that slug: the run writes what the run without it writes, searching one more slug |
| Fetch.EmptyImageListRaises | src/lutris_coverup/fetch.py:148 | an empty image list raises `IndexError` before anything is written |
| Fetch.EmptyImageListStopsRun | src/lutris_coverup/fetch.py:145-148 | wherever an empty image list falls after slugs that went on, the loop raises `IndexError` there: it has searched one slug more than those before, and written exactly what the loop over them writes |
| Fetch.StepWritesPath | src/lutris_coverup/fetch.py:42 | every write for a slug goes to that slug's asset path, the same one the scanner tests |
| Fetch.StepsWritePath | src/lutris_coverup/fetch.py:75 | each step in the list writes only to its own slug's asset path |
| Fetch.RunWritesVisitedPaths | src/lutris_coverup/fetch.py:149 | every write of a run is at the asset path of a slug that was searched |
| Fetch.RunWritesProcessedPaths | src/lutris_coverup/fetch.py:44-49 | every write of a run is at the asset path of a slug the loop processed, or of the last slug searched when its exception ended the loop (also `fetch.py:77-78`, `151-152`) |
| Fetch.FetchLeavesOtherFiles | src/lutris_coverup/fetch.py:44-49 | a file that is no slug's asset path is neither created, removed nor changed |
| Fetch.FetchChangesOnlyProcessed | src/lutris_coverup/fetch.py:77-125 | a file changes only when a processed slug lives at its path, or the slug whose exception ended the loop; every other path keeps its file or stays absent |
| Fetch.ProcessedWritesTwice | src/lutris_coverup/fetch.py:148-169 | a processed slug's file is written with the first image's download and then overwritten once with the processed image |
| Fetch.SavedImageSize | src/lutris_coverup/fetch.py:157-169 | the saved cover or banner has the target size under STRETCH or CROP and the downloaded size under NONE; a saved icon fits 128x128 and is never enlarged |
| Fetch.IconsIgnoreResize | src/lutris_coverup/fetch.py:22 | the icon run does not depend on the resize mode |
| Fetch.MissingLogoStillSaved | src/lutris_coverup/fetch.py:84-125 | without logos the banner is still resized and saved |
| Fetch.BannerCrashKeepsDownload | src/lutris_coverup/fetch.py:74-95 | a banner whose logo list is empty, or which is one pixel wide, ends the loop with an exception after its raw download was written, and the asset file holds that download |
| Fetch.ProcessedFileExists | src/lutris_coverup/fetch.py:125 | a processed slug's asset file exists after the run |

## Left out

- The SteamGridDB client and `requests.get` are modelled as the `Catalog`
  datatype: search, image sets by id, and the image a URL downloads to. No
  network failure is modelled.
- ComposeBanner: image modes are not modelled, so `paste`'s `ValueError` for
  a logo whose mode cannot be its own mask (a palette or RGB logo, say) is not
  modelled; the model composes such a banner. In the code that exception ends
  the run after the raw banner was written at its asset path
  (`fetch.py:77-78`), and no later fetcher runs.
- ComposeBannerCentresLogo: for the same reason it promises success whenever
  the logo's width bound is positive, which the code does not for such a logo.
- Pixels are not modelled. Decoding, encoding, resampling filters and alpha
  compositing are left out, and so is a download that fails to decode; an image
  is its size plus a record of where its pixels came from.
- The float bound `W - W * 0.3` is modelled as `(7 * W) / 10`. With floats the
  two can differ by one pixel.
- Pillow's `thumbnail` rounding is modelled with exact integer arithmetic.
  Ties that float rounding would decide otherwise are not modelled.
- Pillow refusing a zero-size resize is modelled only where it can happen, in
  the logo thumbnail of a one-pixel-wide banner.
- `expanduser` and `absolute` are not modelled: the two directories are taken
  as absolute paths.
- pathlib's special case of a path starting with exactly `//` is not modelled.
- The suffix rule is that of Python 3.13 and earlier: a name ending in a dot
  has no suffix.
- `is_file()` is membership in the disk's paths. Directories and permissions
  are not modelled, so in the model a write never fails. In the code,
  `open(img_path, "wb")` into a missing asset directory raises and ends the
  process, and an `is_file()` that raises for another reason (a name too long,
  say) aborts the scan; neither is modelled.
- The sqlite connection and query are a parameter. A failed connection or
  query is `None`. A NULL slug is a row `None`. The scan then raises, as the
  code does with a `TypeError` from `joinpath` (`cli.py:98`, `105`) or, for
  target ICONS, from the `"lutris_" +` concatenation (`cli.py:110`).
- Logging text and the click option parsing (defaults, `--version`, `--help`) are left out.
- `load_dotenv` and the `STEAMGRIDDB_API_KEY` fallback (`cli.py:132-137`) are
  left out, because the key only reaches the catalog client.
- The temporary file holding the logo is left out. The logo is the catalog's
  download of its URL.
- The inner `if not res` branches (`fetch.py:32`, `63`, `139`) cannot be taken
  once the loop has not broken. The model has no such branch.
- An exception escaping a fetcher ends the process. The model stops calling
  fetchers and reports the exception as the last call's `Crashed` status.
