# Upload progress and anonymous ratings of a note-sharing client

This project models the logic of three React components of a note-sharing web
client and proves properties of that model in Dafny.

- **The upload form** (`UploadForm.tsx`). It checks a submission against the
  form schema: a title of at least three UTF-16 code units and exactly one file
  of at most 200 MiB. While the file uploads, a progress tracker turns each
  (bytes sent, bytes in all) event into three figures:
  - a rounded percentage;
  - a speed, smoothed over the last five positive instantaneous speeds;
  - an estimated time left.

  The figures are shown through three formatters: file size, speed and time.
  The form resets its figures when a submission starts, and again when it
  succeeds.
- **The star-rating widget** (`RatingStars.tsx`). Each browser keeps an
  anonymous device id in `localStorage`, read or created on demand. The widget
  shows `hovered ?? own rating ?? average ?? 0` as five stars. Its effect
  fetches this device's earlier rating. A click submits a new rating; the own
  rating changes, and `onRatingChange` runs, only when the server accepts it.
  Clicks and hovers are ignored while a submission is in flight and when the
  widget is not interactive.
- **The note card** (`NoteCard.tsx`). It picks the colour band of the
  rating badge and shows the badge only when the note has an average. It
  embeds an interactive rating widget and reacts to that widget's reports
  through `handleRatingChange`.

Files:
- `common.dfy` holds what the modules share:
  - optional values;
  - JavaScript's `Math.round` and `Math.floor`;
  - the decimal renderings of numbers (`String(n)`, `toFixed(2)`,
    `parseFloat`, `padStart`);
  - a reader of decimal numerals, against which those renderings are proved
    to read back.
- `upload_format.dfy` holds the three formatters. Each is split into:
  - a function that selects the numbers shown (unit, rounded amount,
    minutes and seconds), with their bounds proved;
  - a renderer that turns those numbers into the string.
- `upload_form.dfy` holds:
  - the schema, with the title measured in UTF-16 code units;
  - the percentage, the speed window with its mean, and the time left;
  - `Step` and `Replay`, the tracker as a function on values;
  - the class `UploadFormState`. That class holds the form's state fields and
    the tracker's closure variables (`lastLoaded`, `lastTime`,
    `speedHistory`), and its methods are proved against `Step` and `Replay`.
- `rating_stars.dfy` holds:
  - the device-id read-or-create, both as a function on the store and as a
    method of a `LocalStorage` class;
  - the display chain;
  - the star-fill test;
  - the class `RatingWidget`.
- `note_card.dfy` holds the badge classifier and the class `NoteCardState`.

`Date.now()`, `Math.random()`, the outcomes of the server calls and whether
`localStorage` lets itself be read and written are parameters:
- the clock reading of a progress event;
- the random suffix of a new device id;
- whether `localStorage.getItem` and `setItem` throw;
- whether `rateNote` succeeded;
- what `getUserRating` returned;
- whether the upload succeeded.

The model follows what the code does, including where that is not what one
might expect:
- The percentage is not clamped to 0..100.
- A `loaded` value lower than the previous one is not clamped. It produces a
  non-positive speed, which is simply not recorded.
- An empty speed window reports the instantaneous speed itself, not a
  "Calculating..." placeholder.
- When the mean speed is not positive, the previous time-left text stays on
  screen, not a placeholder.
- `formatFileSize` passes its amount through `parseFloat`, so 1536 bytes
  show as "1.5 KB" and 1048576 bytes as "1 MB", not "1.50 KB" and "1.00 MB".
- `formatTime` can show a seconds field of 60: 119.6 seconds gives
  "1:60 minutes".
- `localStorage.getItem(...) || ...` treats a stored empty string like a
  missing key, so an empty device id is replaced.
- The device-id read-or-create runs inside the handlers' `try`. When
  `localStorage` refuses a read or the write, no request is sent, the rating
  stays, and loading still ends.

## Model

| member | source | states |
|---|---|---|
| `Common.RoundHalfUp` | src/components/UploadForm.tsx:76 | `Math.round` gives the integer nearest to its argument, with a half rounded up. |
| `Common.NatToStringRoundTrip` | src/components/UploadForm.tsx:184 | The decimal digits written for a natural number read back as that number. |
| `Common.TwoDigitsValue` | src/components/UploadForm.tsx:184 | `toString().padStart(2, '0')` of a number below 100 is two digits with that value. |
| `Common.ShortDecimalParses` | src/components/UploadForm.tsx:163 | `parseFloat(x.toFixed(2))` written back as text reads as exactly the rounded amount. A point appears exactly when the amount is not whole, and then the text does not end in 0. |
| `Common.Fixed2Parses` | src/components/UploadForm.tsx:168-170 | The `toFixed(2)` text reads back as exactly the rounded amount, with exactly two digits after the point. |
| `UploadFormat.UnitIndex` | src/components/UploadForm.tsx:161 | The unit index is the largest `i` with `1024^i <= bytes`. |
| `UploadFormat.SizeFields` | src/components/UploadForm.tsx:156-163 | "0 Bytes" exactly for 0. Otherwise the unit is the largest power of 1024 not above the size. The two-decimal amount lies in 1.00..1024.00, at most 0.005 above and strictly less than 0.005 below `bytes / 1024^unit`, so a tie rounds up. |
| `UploadFormat.UnitNamed` | src/components/UploadForm.tsx:160-163 | The unit has one of the five names exactly when `bytes < 1024^5`. Otherwise `sizes[i]` is undefined. |
| `UploadFormat.FormatFileSizeReadsBack` | src/components/UploadForm.tsx:156-163 | For a non-zero size the text is a number, a space and the unit name of the largest power of 1024 not above the size. The number reads back within half a hundredth of the size in that unit, with no trailing fractional zero. |
| `UploadFormat.FormatFileSizeExamples` | src/components/UploadForm.tsx:156-163 | 0 gives "0 Bytes", 1536 gives "1.5 KB", 1048576 gives "1 MB" (trailing zeros dropped by `parseFloat`). |
| `UploadFormat.SpeedFields` | src/components/UploadForm.tsx:166-174 | MB/s exactly above 1048576 B/s, KB/s exactly in (1024, 1048576], B/s otherwise. Each amount is at most half a unit of its last digit above the exact quotient and strictly less than that below it. |
| `UploadFormat.FormatSpeedReadsBack` | src/components/UploadForm.tsx:166-171 | Above 1024 B/s the text is a number with exactly two decimals, then " MB/s" above 1048576 B/s and " KB/s" otherwise. The number reads back within half a hundredth of the speed in that unit. |
| `UploadFormat.FormatSpeedExamples` | src/components/UploadForm.tsx:166-174 | 1536 gives "1.50 KB/s", 1024 gives "1024 B/s", -3 gives "-3 B/s". |
| `UploadFormat.Remainder` | src/components/UploadForm.tsx:183 | `x % m` for `x >= 0` lies in `[0, m)`, and `x` minus it is a whole multiple of `m`. |
| `UploadFormat.TimeFields` | src/components/UploadForm.tsx:176-190 | The branch follows the thresholds 1, 60 and 3600 (both directions). In the minutes branch, minutes is `floor(s/60)` in 1..59 and seconds is the rounded remainder in 0..60. In the hours branch, hours is `floor(s/3600)` and the whole minutes are in 0..59. |
| `UploadFormat.FormatTimeUnitWord` | src/components/UploadForm.tsx:176-190 | The text is "Less than a second" exactly below 1 second. It ends in " seconds" exactly in [1, 60), in " minutes" exactly in [60, 3600), and in " hours" exactly from 3600 up. |
| `UploadFormat.FormatTimeExamples` | src/components/UploadForm.tsx:176-190 | 0.5 gives "Less than a second", 65 gives "1:05 minutes", 3700 gives "1:01 hours". |
| `UploadFormat.FormatTimeSixtySeconds` | src/components/UploadForm.tsx:181-184 | 119.6 seconds gives the seconds field 60 and the text "1:60 minutes". |
| `UploadForm.Utf16Length` | src/components/UploadForm.tsx:25 | The title length zod measures: between the number of characters and twice that. |
| `UploadForm.ValidateUpload` | src/components/UploadForm.tsx:22-31 | Accepted exactly when the title has at least 3 UTF-16 code units and the file list holds one file of at most 200 MiB. The values passed on are the title and that file. A too-short title is reported exactly when it is too short. The failed file rule is always reported. |
| `UploadForm.ValidateUploadTitleExamples` | src/components/UploadForm.tsx:25 | A letter and an emoji make a long enough title. Two letters do not, and are reported as too short. |
| `UploadForm.PercentIntegerForm` | src/components/UploadForm.tsx:76 | `round(loaded/total*100)` equals `(200*loaded + total) div (2*total)`. |
| `UploadForm.PercentBounds` | src/components/UploadForm.tsx:76 | For `0 <= loaded <= total` the percentage lies in 0..100. |
| `UploadForm.PercentMonotone` | src/components/UploadForm.tsx:76 | More bytes sent never lowers the percentage. |
| `UploadForm.PercentComplete` | src/components/UploadForm.tsx:76 | The whole file sent gives exactly 100. |
| `UploadForm.WindowBounded` | src/components/UploadForm.tsx:89-94 | The window of the last positive speeds never holds more than five entries, and each is strictly positive. |
| `UploadForm.WindowStep` | src/components/UploadForm.tsx:89-94 | The push-then-shift update applied to the window of a speed sequence gives the window of that sequence extended by one speed. So the history is always the last five positive speeds, oldest first. |
| `UploadForm.Mean` | src/components/UploadForm.tsx:96-98 | The mean times the number of entries is their sum. |
| `UploadForm.MeanBounds` | src/components/UploadForm.tsx:96-98 | The mean of a window lies between any lower and any upper bound of its entries. |
| `UploadForm.MeanPositive` | src/components/UploadForm.tsx:96-98 | The mean of a non-empty window of positive speeds is positive. |
| `UploadForm.ReportedSpeedPositive` | src/components/UploadForm.tsx:96-106 | After a speed is recorded, the speed shown is positive exactly when the window is non-empty. So the time left is recomputed exactly then. |
| `UploadForm.InstantSpeed` | src/components/UploadForm.tsx:82-87 | The speed times the elapsed seconds is the bytes sent since the last sample. It is positive exactly when more bytes were sent. |
| `UploadForm.Eta` | src/components/UploadForm.tsx:102-104 | The time left times the speed is the bytes remaining. |
| `UploadForm.EtaMonotone` | src/components/UploadForm.tsx:102-105 | The time left is not negative while `loaded <= total`, and a faster speed never gives a longer time. |
| `UploadForm.Step` | src/components/UploadForm.tsx:82-110 | A sample whose clock does not pass the previous one changes nothing. Otherwise exactly one speed is appended, the sample becomes the reference, and a speed is shown. |
| `UploadForm.ReplayExtends` | src/components/UploadForm.tsx:75-111 | Over a run of samples the speeds are only ever appended, at most one per sample. When none was appended nothing changed. Once one was, a speed is shown. |
| `UploadForm.StillCalculating` | src/components/UploadForm.tsx:64-65 | The speed stays "Calculating..." exactly as long as no sample has moved the clock. |
| `UploadForm.UploadFormState.constructor` | src/components/UploadForm.tsx:46-51 | The form starts idle, with no file, zero progress and bytes, and "Calculating..." for speed and time left. |
| `UploadForm.UploadFormState.SelectFile` | src/components/UploadForm.tsx:145-154 | The first chosen file becomes the selection, and an empty choice clears it. |
| `UploadForm.UploadFormState.StartSubmit` | src/components/UploadForm.tsx:60-73 | Uploading is on, progress and bytes are 0, speed and time left are "Calculating...", and the tracker starts at 0 bytes at the start time with an empty history. |
| `UploadForm.UploadFormState.TrackProgress` | src/components/UploadForm.tsx:75-111 | Progress and bytes are always updated. When the clock did not advance, the history, reference sample, speed and time left are all unchanged. Otherwise the speed is recorded, the shown speed is the history's mean (or the speed itself when the history is empty), and the time left is recomputed only from a positive mean. The tracker's state moves by one `Step`. |
| `UploadForm.UploadFormState.UpdateSpeed` | src/components/UploadForm.tsx:85-110 | The branch for an advanced clock: speed recorded, mean shown, time left from a positive mean only, and the sample becomes the reference point. The history stays the window of all speeds. |
| `UploadForm.UploadFormState.RecordSpeed` | src/components/UploadForm.tsx:89-94 | A positive speed is pushed and the oldest entry shifted out beyond five. The history stays a bounded queue of positive speeds. |
| `UploadForm.UploadFormState.DeliverSample` | src/components/UploadForm.tsx:113-119 | One progress report of the upload moves the tracker from the replay of the earlier samples to the replay including this one. |
| `UploadForm.UploadFormState.Upload` | src/components/UploadForm.tsx:113-119 | After all the upload's progress reports, the tracker is where replaying them leaves it. Progress and bytes are those of the last report, or 0 without any. |
| `UploadForm.UploadFormState.FinishSubmit` | src/components/UploadForm.tsx:121-142 | On success the figures are cleared, the selection dropped and `onSuccess` called if given. On failure the figures stay. Either way uploading is off. |
| `UploadForm.UploadFormState.Submit` | src/components/UploadForm.tsx:60-143 | A whole submission. The speeds computed are those of replaying the samples, and the history is their last five positive ones. Uploading is off at the end. After a failure, progress, speed and time left are those the samples left. After a success everything is cleared. |
| `RatingStars.DeviceIdLookup` | src/components/RatingStars.tsx:37-43 | A stored non-empty id is returned and nothing is written. Otherwise `device_` plus the random suffix is stored and returned. The store then holds the returned non-empty id, and no other key changes. |
| `RatingStars.ObtainDeviceId` | src/components/RatingStars.tsx:35-43 | An id is obtained exactly when `getItem` does not throw and the store either holds an id or `setItem` does not throw. It then agrees with `DeviceIdLookup`. Otherwise the store is unchanged. |
| `RatingStars.DeviceIdIdempotent` | src/components/RatingStars.tsx:65-71 | Once an id was obtained, a later read-or-create returns the same id and leaves the store unchanged. This holds whatever suffix it is offered, even when the store can no longer be written. |
| `RatingStars.LocalStorage.GetItem` | src/components/RatingStars.tsx:37 | `getItem` throws exactly when the store cannot be read. Otherwise it gives the stored value, or null when the key is absent. |
| `RatingStars.LocalStorage.SetItem` | src/components/RatingStars.tsx:42 | `setItem` stores the value under the key, or throws and stores nothing. |
| `RatingStars.LocalStorage.GetOrCreateDeviceId` | src/components/RatingStars.tsx:65-71 | The two reads and the conditional write yield the id (or none when a call threw) and the store that `ObtainDeviceId` describes. |
| `RatingStars.FirstPresent` | src/components/RatingStars.tsx:29 | The index found is that of the first present value: every earlier one is null. |
| `RatingStars.DisplayRatingFirstPresent` | src/components/RatingStars.tsx:29 | The value shown is the first present of hovered star, own rating and average, else 0. A present own rating of 0 is shown, not skipped. |
| `RatingStars.DisplayScenario` | src/components/RatingStars.tsx:29 | Hover 3, own rating 5 and average 2.4 show 3. Once the hover ends they show 5. |
| `RatingStars.FilledCount` | src/components/RatingStars.tsx:99-106 | Star k in 1..5 is filled exactly when `k <= m` for a single m in 0..5. So the filled stars are always a prefix. |
| `RatingStars.RatingWidget.constructor` | src/components/RatingStars.tsx:25-27 | The widget starts with no own rating, no hover and not loading. |
| `RatingStars.RatingWidget.LoadUserRating` | src/components/RatingStars.tsx:32-57 | Only an interactive widget asks the server, and only once the device id was obtained. The own rating is overwritten only by a non-null answer; null, an error or a storage failure leaves it. |
| `RatingStars.RatingWidget.StartRating` | src/components/RatingStars.tsx:62-73 | Loading is on. The rating is sent with this device's id exactly when the id was obtained. |
| `RatingStars.RatingWidget.SettleRating` | src/components/RatingStars.tsx:73-93 | Only when the `try` block completed does the own rating become the new one and `onRatingChange` run. Loading is off on both paths. |
| `RatingStars.RatingWidget.HandleRating` | src/components/RatingStars.tsx:59-94 | A non-interactive widget changes nothing and sends nothing. An interactive one sends the rating once if the device id was obtained. It adopts the rating and notifies only when the id was obtained and the server accepted. It ends not loading. |
| `RatingStars.RatingWidget.Click` | src/components/RatingStars.tsx:110-112 | A click while loading or non-interactive is ignored. Otherwise it is a full `handleRating` of that star. |
| `RatingStars.RatingWidget.MouseEnter` | src/components/RatingStars.tsx:113-115 | The hovered star is previewed only when input is accepted. The stars then show it, and hovering star k of 1..5 fills exactly k stars. |
| `RatingStars.RatingWidget.MouseLeave` | src/components/RatingStars.tsx:116-118 | The preview ends only when input is accepted. The stars then show the own rating, else the average, else 0. |
| `NoteCard.RatingColor` | src/components/NoteCard.tsx:58-64 | Gray exactly for no rating. Otherwise green from 4 up, blue in [3, 4), yellow in [2, 3) and red below 2, each in both directions. |
| `NoteCard.GetRatingColorClasses` | src/components/NoteCard.tsx:58-64 | `getRatingColor` returns each of its five class strings exactly for the ratings of that band. |
| `NoteCard.ColorClassesDistinct` | src/components/NoteCard.tsx:58-64 | Different bands get different class strings, so each rating has exactly one. |
| `NoteCard.RatingColorMonotone` | src/components/NoteCard.tsx:58-64 | A higher rating never gets a lower band. |
| `NoteCard.RatingBadge` | src/components/NoteCard.tsx:71-76 | The badge appears exactly when the note has an average. It shows that average, and its band is never the gray of a missing rating. |
| `NoteCard.NoteCardState.constructor` | src/components/NoteCard.tsx:97-103 | The embedded widget rates this note, gets the note's average and count unchanged, is always interactive and reports back to the card. |
| `NoteCard.NoteCardState.HandleRatingChange` | src/components/NoteCard.tsx:41-47 | `ratingUpdated` becomes true, and `onDelete` runs exactly when it was given. |
| `NoteCard.NoteCardState.ClickStar` | src/components/NoteCard.tsx:97-103 | The card hears of a rating exactly when the widget was free, the device id was obtained and the server accepted. Only then is `ratingUpdated` set and `onDelete` called. The widget's requests, the store and the hover are stated too. |

## Left out

- Rendering is not modelled: JSX, class-name composition (other than the
  badge bands), icons, `toast` messages and `console` logging.
- The widget's caption (`RatingStars.tsx` lines 122-130) is not modelled.
  Neither is the badge's `toFixed(1)` text.
- `handleDownload` (the DOM anchor trick) is not modelled.
- `formatDistanceToNow` is not modelled.
- `src/pages/Upload.tsx` holds only layout and navigation.
- The `uploadNote`, `getUserRating` and `rateNote` calls are not modelled;
  their code is not part of this model.
  - Their outcomes are parameters.
  - The server's uniqueness per device and note, and its recomputation of
    averages, are not modelled.
- zod and react-hook-form internals are not modelled. The schema is modelled
  as its accept/reject decision and the issue it reports for each field. The
  exact list and messages zod would collect are not.
- `form.reset()` is not modelled.
- Floating point is not modelled. Amounts are exact reals:
  - `toFixed(2)` is round-half-up of the exact value;
  - `Math.log(bytes) / Math.log(1024)` is the exact unit index, without the
    imprecision of logarithms near powers of 1024;
  - `bytes / 1024^i` is exact;
  - the speed mean sums without rounding.
- `UploadForm.UploadFormState.TrackProgress`: a `total` of 0, which makes
  JavaScript's percentage NaN or infinite, is excluded by its precondition.
- Ratings from `getUserRating` are integers, the values the stars submit.
- React is not modelled: its batching of state updates and its effect
  scheduling. Each handler is a method that runs to completion, and
  `handleRating` is split at its `await` into `StartRating` and
  `SettleRating`. The upload's progress reports arrive in order, each at its
  own clock reading, before the upload settles.
- The speed and time-left state fields hold the formatter's fields, not the
  string itself. `SpeedLabel` and `TimeLabel` render them, through the same
  renderers `formatSpeed` and `formatTime` use.
- Amounts are unbounded integers and exact reals: JavaScript numbers
  overflowing or losing integer precision are not modelled.
- A storage access either always throws or never does during one
  read-or-create, so the second `getItem` throws exactly when the first one
  does.
- Characters outside the Basic Multilingual Plane count twice towards the
  title's length, as UTF-16 code units do. Unpaired surrogates are not
  modelled, because Dafny strings hold only whole characters.
