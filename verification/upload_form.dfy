/** The upload form: the rules a submission must pass, the progress
    estimator that turns transfer samples into a percentage, a smoothed speed
    and a remaining time, and the state the form keeps across one submission. */
module UploadForm {
  import opened Common
  import opened UploadFormat

  // ---------------------------------------------------------------------------
  // Validation of the form values

  /** The largest accepted file: 200 MiB. */
  const MaxFileSize: int := 200 * 1024 * 1024

  /** The shortest accepted title. */
  const MinTitleLength: nat := 3

  /** A file chosen in the browser: its name and size in bytes. */
  datatype FileInfo = FileInfo(name: string, size: int)

  /** The values a valid submission carries on: the title and the one file. */
  datatype UploadValues = UploadValues(title: string, file: FileInfo)

  /** Why a submission was refused. */
  datatype Issue = TitleTooShort | NotAFileList | NotExactlyOneFile | FileTooLarge

  /** The issue reported for the file field, if any. */
  function FileIssue(files: Option<seq<FileInfo>>): Option<Issue> {
    match files
    case None => Some(NotAFileList)
    case Some(list) =>
      if |list| != 1 then Some(NotExactlyOneFile)
      else if list[0].size > MaxFileSize then Some(FileTooLarge)
      else None
  }

  /** `s.length` in JavaScript: the number of UTF-16 code units, so a
      character beyond U+FFFF counts twice. */
  function Utf16Length(s: string): (n: nat)
    ensures |s| <= n <= 2 * |s|
  {
    if s == [] then 0
    else Utf16Length(s[..|s| - 1]) + (if s[|s| - 1] as int >= 0x1_0000 then 2 else 1)
  }

  /** The form schema: a title of at least three UTF-16 code units, a file
      list with exactly one file, and that file no larger than 200 MiB.
      `files` is None when the file field holds no file list at all. A
      refusal reports every rule that failed. */
  function ValidateUpload(title: string, files: Option<seq<FileInfo>>): (r: Result<UploadValues, seq<Issue>>)
    ensures r.Ok? <==>
              Utf16Length(title) >= 3 && files.Some? && |files.value| == 1 && files.value[0].size <= 200 * 1024 * 1024
    ensures r.Ok? ==> r.value == UploadValues(title, files.value[0])
    ensures r.Err? ==> (TitleTooShort in r.error <==> Utf16Length(title) < 3)
    ensures r.Err? && FileIssue(files).Some? ==> FileIssue(files).value in r.error
    ensures r.Err? ==> r.error != [] && forall e :: e in r.error ==> e == TitleTooShort || Some(e) == FileIssue(files)
  {
    var titleIssues := if Utf16Length(title) < MinTitleLength then [TitleTooShort] else [];
    var fileIssues := match FileIssue(files) case Some(e) => [e] case None => [];
    if titleIssues + fileIssues == [] then Ok(UploadValues(title, files.value[0]))
    else Err(titleIssues + fileIssues)
  }

  /** A title of one letter and one emoji is three code units long, so it
      passes, while two letters do not. */
  lemma ValidateUploadTitleExamples()
    ensures ValidateUpload("a\U{1F600}", Some([FileInfo("notes.pdf", 10)])).Ok?
    ensures ValidateUpload("ab", Some([FileInfo("notes.pdf", 10)])) == Err([TitleTooShort])
  {
    assert Utf16Length("a\U{1F600}") == 3 by {
      assert "a\U{1F600}"[..1] == "a";
    }
    assert Utf16Length("ab") == 2 by {
      assert "ab"[..1] == "a";
    }
    assert FileIssue(Some([FileInfo("notes.pdf", 10)])) == None;
    assert [TitleTooShort] + [] == [TitleTooShort];
  }

  // ---------------------------------------------------------------------------
  // Percentage

  /** `Math.round((loaded / total) * 100)`; not clamped to 0..100. */
  function Percent(loaded: int, total: int): int
    requires total > 0
  {
    RoundHalfUp(loaded as real / total as real * 100.0)
  }

  /** A non-negative amount below a positive one divides to a fraction. */
  lemma FractionBounds(a: real, b: real)
    requires 0.0 <= a < b
    ensures 0.0 <= a / b < 1.0
  {
  }

  /** Dividing by a positive number keeps the sign of the difference. */
  lemma DivideMonotone(a: real, a': real, b: real)
    requires a <= a' && b > 0.0
    ensures a / b <= a' / b
  {
  }

  /** The floor of an exact quotient of integers is their floor division. */
  lemma QuotientFloor(n: int, d: int)
    requires d > 0
    ensures (n as real / d as real).Floor == n / d
  {
    var q, r := n / d, n % d;
    FractionBounds(r as real, d as real);
    assert n as real == q as real * d as real + r as real;
    assert n as real / d as real == q as real + r as real / d as real;
  }

  /** The rounded percentage in integer arithmetic. */
  lemma PercentIntegerForm(loaded: int, total: int)
    requires total > 0
    ensures Percent(loaded, total) == (200 * loaded + total) / (2 * total)
  {
    var x := loaded as real / total as real * 100.0 + 0.5;
    assert x == (200 * loaded + total) as real / (2 * total) as real;
    QuotientFloor(200 * loaded + total, 2 * total);
  }

  /** For samples within the file the percentage lies in 0..100. */
  lemma PercentBounds(loaded: int, total: int)
    requires 0 <= loaded <= total && total > 0
    ensures 0 <= Percent(loaded, total) <= 100
  {
    DivideMonotone(0.0, loaded as real, total as real);
    DivideMonotone(loaded as real, total as real, total as real);
    assert 0.0 <= loaded as real / total as real <= 1.0;
  }

  /** More bytes sent never lowers the percentage. */
  lemma PercentMonotone(loaded: int, loaded': int, total: int)
    requires loaded <= loaded' && total > 0
    ensures Percent(loaded, total) <= Percent(loaded', total)
  {
    DivideMonotone(loaded as real, loaded' as real, total as real);
  }

  /** The whole file sent is exactly 100 percent. */
  lemma PercentComplete(total: int)
    requires total > 0
    ensures Percent(total, total) == 100
  {
    assert total as real / total as real == 1.0;
  }

  // ---------------------------------------------------------------------------
  // Speed window

  /** The number of recent speed readings averaged. */
  const MaxSpeedSamples: nat := 5

  /** The strictly positive readings of `speeds`, in arrival order. */
  function Positives(speeds: seq<real>): (ps: seq<real>)
    ensures |ps| <= |speeds|
    ensures forall i :: 0 <= i < |ps| ==> ps[i] > 0.0
  {
    if speeds == [] then []
    else
      var last := speeds[|speeds| - 1];
      Positives(speeds[..|speeds| - 1]) + (if last > 0.0 then [last] else [])
  }

  /** The last `n` elements of `s`, or all of it when it is shorter. */
  function LastN(s: seq<real>, n: nat): (r: seq<real>)
    ensures |r| <= n && |r| <= |s|
  {
    if |s| <= n then s else s[|s| - n..]
  }

  /** The window the estimator should hold after the instantaneous speeds
      `speeds`: the last (up to) five strictly positive ones, oldest first. */
  function Window(speeds: seq<real>): seq<real> {
    LastN(Positives(speeds), MaxSpeedSamples)
  }

  /** The window never holds more than five readings, all strictly positive. */
  lemma WindowBounded(speeds: seq<real>)
    ensures |Window(speeds)| <= MaxSpeedSamples
    ensures forall i :: 0 <= i < |Window(speeds)| ==> Window(speeds)[i] > 0.0
  {
    var ps := Positives(speeds);
    if |ps| > MaxSpeedSamples {
      assert forall i :: 0 <= i < MaxSpeedSamples ==> Window(speeds)[i] == ps[|ps| - MaxSpeedSamples + i];
    }
  }

  /** What the tracker does to its history with a new reading `v`: a
      positive reading is pushed and, past five entries, the oldest shifted
      out; any other reading leaves the history as it was. */
  function Push(history: seq<real>, v: real): seq<real> {
    if v <= 0.0 then history
    else if |history| + 1 > MaxSpeedSamples then (history + [v])[1..]
    else history + [v]
  }

  /** Pushing each reading in turn keeps exactly the last five positive
      readings: the window after one more reading is the old window with
      that reading pushed. */
  lemma {:induction false} WindowStep(speeds: seq<real>, v: real)
    ensures Window(speeds + [v]) == Push(Window(speeds), v)
  {
    assert (speeds + [v])[..|speeds|] == speeds;
    var ps := Positives(speeds);
    if v > 0.0 {
      assert Positives(speeds + [v]) == ps + [v];
      if |ps| > MaxSpeedSamples {
        assert (ps + [v])[|ps| + 1 - MaxSpeedSamples..] == ps[|ps| - MaxSpeedSamples..][1..] + [v];
      }
    }
  }

  /** `reduce((sum, speed) => sum + speed, 0)`: the sum from left to right. */
  function Sum(w: seq<real>): real {
    if w == [] then 0.0 else Sum(w[..|w| - 1]) + w[|w| - 1]
  }

  /** The arithmetic mean of a non-empty window. */
  function Mean(w: seq<real>): (r: real)
    requires |w| > 0
    ensures r * |w| as real == Sum(w)
  {
    Sum(w) / |w| as real
  }

  /** Readings between `lo` and `hi` sum to between `|w| * lo` and `|w| * hi`. */
  lemma {:induction false} SumBounds(w: seq<real>, lo: real, hi: real)
    requires forall i :: 0 <= i < |w| ==> lo <= w[i] <= hi
    ensures |w| as real * lo <= Sum(w) <= |w| as real * hi
  {
    if w != [] {
      SumBounds(w[..|w| - 1], lo, hi);
    }
  }

  /** The mean of readings between `lo` and `hi` is between them too. */
  lemma MeanBounds(w: seq<real>, lo: real, hi: real)
    requires |w| > 0
    requires forall i :: 0 <= i < |w| ==> lo <= w[i] <= hi
    ensures lo <= Mean(w) <= hi
  {
    SumBounds(w, lo, hi);
    var n := |w| as real;
    assert lo == lo * n / n && hi == hi * n / n;
    DivideMonotone(lo * n, Sum(w), n);
    DivideMonotone(Sum(w), hi * n, n);
  }

  /** The mean of readings that are all strictly positive is strictly positive. */
  lemma {:induction false} MeanPositive(w: seq<real>)
    requires |w| > 0
    requires forall i :: 0 <= i < |w| ==> w[i] > 0.0
    ensures Mean(w) > 0.0
  {
    if |w| == 1 {
      assert Sum(w) == w[0];
    } else {
      SumPositive(w[..|w| - 1]);
    }
  }

  lemma {:induction false} SumPositive(w: seq<real>)
    requires forall i :: 0 <= i < |w| ==> w[i] > 0.0
    ensures Sum(w) >= 0.0
    ensures |w| > 0 ==> Sum(w) > 0.0
  {
    if w != [] {
      SumPositive(w[..|w| - 1]);
    }
  }

  /** The speed shown: the mean of the window, or the instantaneous speed
      `current` when the window is empty. */
  function ReportedSpeed(window: seq<real>, current: real): real {
    if |window| > 0 then Mean(window) else current
  }

  /** After a reading `v`, the reported speed is positive exactly when the
      window is non-empty: an empty window only happens when `v` itself was
      not positive, and a non-empty window holds positive readings only. */
  lemma ReportedSpeedPositive(speeds: seq<real>, v: real)
    ensures ReportedSpeed(Window(speeds + [v]), v) > 0.0 <==> Window(speeds + [v]) != []
  {
    var w := Window(speeds + [v]);
    if w != [] {
      WindowBounded(speeds + [v]);
      MeanPositive(w);
    } else {
      WindowStep(speeds, v);
    }
  }

  /** The instantaneous speed in bytes per second between two samples, the
      times being milliseconds as `Date.now()` gives them. */
  function InstantSpeed(lastLoaded: int, lastTime: int, loaded: int, now: int): (r: real)
    requires now > lastTime
    ensures r * ((now - lastTime) as real / 1000.0) == (loaded - lastLoaded) as real
    ensures r > 0.0 <==> loaded > lastLoaded
  {
    var seconds := (now - lastTime) as real / 1000.0;
    var r := (loaded - lastLoaded) as real / seconds;
    assert r * seconds == (loaded - lastLoaded) as real;
    r
  }

  /** The seconds left at `speed` bytes per second. */
  function Eta(loaded: int, total: int, speed: real): (r: real)
    requires speed > 0.0
    ensures r * speed == (total - loaded) as real
  {
    (total - loaded) as real / speed
  }

  /** The ETA is a real remaining time: not negative while `loaded <= total`,
      and shorter the faster the transfer goes. */
  lemma EtaMonotone(loaded: int, total: int, speed: real, speed': real)
    requires loaded <= total && 0.0 < speed <= speed'
    ensures 0.0 <= Eta(loaded, total, speed') <= Eta(loaded, total, speed)
  {
    var rest := (total - loaded) as real;
    assert rest / speed' == (rest / speed) * (speed / speed');
    assert 0.0 < speed / speed' <= 1.0;
  }

  /** What a speed or time-left state field holds: the placeholder shown
      until a figure is known, the empty string a finished upload leaves, or
      a formatter's output. */
  datatype Label<T> = Calculating | Blank | Shown(value: T)

  /** The speed text on screen. */
  function SpeedLabel(l: Label<SpeedText>): string {
    match l
    case Calculating => "Calculating..."
    case Blank => ""
    case Shown(t) => RenderSpeed(t)
  }

  /** The time-left text on screen. */
  function TimeLabel(l: Label<TimeText>): string {
    match l
    case Calculating => "Calculating..."
    case Blank => ""
    case Shown(t) => RenderTime(t)
  }

  /** One progress event: bytes sent so far, bytes in all, and the clock in
      milliseconds when it arrived. */
  datatype Sample = Sample(loaded: int, total: int, time: int)

  /** What the tracker of one submission has produced so far: its reference
      sample, every instantaneous speed it computed, and the speed and time
      left it shows. */
  datatype TrackerView = TrackerView(lastLoaded: int, lastTime: int, speeds: seq<real>,
                                     speed: Label<SpeedText>, timeLeft: Label<TimeText>)

  /** The tracker as `onSubmit` starts it at `startTime`. */
  function Started(startTime: int): TrackerView {
    TrackerView(0, startTime, [], Calculating, Calculating)
  }

  /** One call of the tracker, on values: a sample whose time does not pass
      the reference changes nothing; otherwise its speed is computed, the
      shown speed is the mean of the last five positive speeds so far (the
      speed itself when there are none), the time left follows only from a
      positive speed, and the sample becomes the reference. */
  function Step(view: TrackerView, s: Sample): (next: TrackerView)
    ensures s.time <= view.lastTime ==> next == view
    ensures s.time > view.lastTime ==>
              && next.lastLoaded == s.loaded && next.lastTime == s.time
              && |next.speeds| == |view.speeds| + 1 && next.speeds[..|view.speeds|] == view.speeds
              && next.speed.Shown?
  {
    if s.time <= view.lastTime then view
    else
      var v := InstantSpeed(view.lastLoaded, view.lastTime, s.loaded, s.time);
      var speeds := view.speeds + [v];
      var avg := ReportedSpeed(Window(speeds), v);
      TrackerView(s.loaded, s.time, speeds, Shown(SpeedFields(avg)),
                  if avg > 0.0 then Shown(TimeFields(Eta(s.loaded, s.total, avg))) else view.timeLeft)
  }

  /** The tracker after the samples, in order. */
  function Replay(view: TrackerView, samples: seq<Sample>): TrackerView {
    if samples == [] then view
    else Step(Replay(view, samples[..|samples| - 1]), samples[|samples| - 1])
  }

  /** Replaying one more sample is one more step. */
  lemma ReplayNext(view: TrackerView, samples: seq<Sample>, i: nat)
    requires i < |samples|
    ensures Replay(view, samples[..i + 1]) == Step(Replay(view, samples[..i]), samples[i])
  {
    assert samples[..i + 1][..i] == samples[..i];
  }

  /** Replaying only ever appends speeds, at most one per sample; when none
      was appended nothing changed, and once one was the speed is shown. */
  lemma {:induction false} ReplayExtends(view: TrackerView, samples: seq<Sample>)
    ensures var w := Replay(view, samples);
            && |view.speeds| <= |w.speeds| <= |view.speeds| + |samples|
            && w.speeds[..|view.speeds|] == view.speeds
            && (|w.speeds| == |view.speeds| ==> w == view)
            && (|w.speeds| > |view.speeds| ==> w.speed.Shown?)
  {
    if samples != [] {
      var before := Replay(view, samples[..|samples| - 1]);
      ReplayExtends(view, samples[..|samples| - 1]);
      var w := Step(before, samples[|samples| - 1]);
      if |w.speeds| > |before.speeds| {
        assert w.speeds[..|view.speeds|] == w.speeds[..|before.speeds|][..|view.speeds|];
      }
    }
  }

  /** The speed stays "Calculating..." exactly as long as no sample has moved
      the clock past the previous one. */
  lemma StillCalculating(startTime: int, samples: seq<Sample>)
    ensures Replay(Started(startTime), samples).speed == Calculating <==>
              Replay(Started(startTime), samples).speeds == []
  {
    ReplayExtends(Started(startTime), samples);
  }

  // ---------------------------------------------------------------------------
  // The form's state

  /** The upload form's state fields and the progress tracker's variables of
      the submission in flight. */
  class UploadFormState {
    /** Whether the caller passed an `onSuccess` callback. */
    const hasOnSuccess: bool

    var isUploading: bool
    var selectedFile: Option<FileInfo>
    var uploadProgress: int
    var uploadedBytes: int
    var uploadSpeed: Label<SpeedText>
    var estimatedTimeLeft: Label<TimeText>
    /** How often `onSuccess` was called. */
    var successCalls: nat

    // The tracker's closure variables for the current submission.
    var lastLoaded: int
    var lastTime: int
    var speedHistory: seq<real>
    /** Every instantaneous speed the tracker computed in this submission. */
    ghost var speeds: seq<real>

    /** The speed history is a bounded queue of positive readings. */
    ghost predicate Valid()
      reads this
    {
      |speedHistory| <= MaxSpeedSamples && forall i :: 0 <= i < |speedHistory| ==> speedHistory[i] > 0.0
    }

    /** The speed history holds the last five positive readings computed so
        far, oldest first. */
    ghost predicate Tracking()
      reads this
    {
      speedHistory == Window(speeds)
    }

    /** The tracker's part of the state. */
    ghost function View(): TrackerView
      reads this
    {
      TrackerView(lastLoaded, lastTime, speeds, uploadSpeed, estimatedTimeLeft)
    }

    /** The form as first shown. */
    constructor(hasOnSuccess: bool)
      ensures Valid() && Tracking()
      ensures this.hasOnSuccess == hasOnSuccess
      ensures !isUploading && selectedFile == None && successCalls == 0
      ensures uploadProgress == 0 && uploadedBytes == 0
      ensures uploadSpeed == Calculating && estimatedTimeLeft == Calculating
    {
      this.hasOnSuccess := hasOnSuccess;
      isUploading := false;
      selectedFile := None;
      uploadProgress, uploadedBytes := 0, 0;
      uploadSpeed, estimatedTimeLeft := Calculating, Calculating;
      successCalls := 0;
      lastLoaded, lastTime := 0, 0;
      speedHistory := [];
      speeds := [];
    }

    /** The file input changed: its first file becomes the selected one, and
        no file clears the selection. */
    method SelectFile(files: seq<FileInfo>)
      modifies this`selectedFile
      ensures selectedFile == if |files| > 0 then Some(files[0]) else None
    {
      if |files| > 0 {
        selectedFile := Some(files[0]);
      } else {
        selectedFile := None;
      }
    }

    /** The start of `onSubmit`: uploading is on, every figure is reset, and
        the tracker starts from zero bytes at `startTime`. */
    method StartSubmit(startTime: int)
      modifies this
      ensures Valid() && Tracking()
      ensures isUploading
      ensures uploadProgress == 0 && uploadedBytes == 0
      ensures uploadSpeed == Calculating && estimatedTimeLeft == Calculating
      ensures lastLoaded == 0 && lastTime == startTime && speedHistory == [] && speeds == []
      ensures selectedFile == old(selectedFile) && successCalls == old(successCalls)
    {
      isUploading := true;
      uploadProgress := 0;
      uploadedBytes := 0;
      uploadSpeed := Calculating;
      estimatedTimeLeft := Calculating;
      lastLoaded := 0;
      lastTime := startTime;
      speedHistory := [];
      speeds := [];
    }

    /** `trackProgress(loaded, total)` called at time `now`. The percentage
        and the byte count are always updated. Only when the clock advanced
        is a speed computed: the history takes it if positive, the speed
        shown becomes the history's mean (the speed itself when the history
        is empty), the time left is recomputed only from a positive speed,
        and the sample becomes the new reference point. */
    method TrackProgress(loaded: int, total: int, now: int)
      requires Valid() && total > 0
      modifies this`uploadProgress, this`uploadedBytes
      modifies this`speedHistory, this`speeds, this`uploadSpeed, this`estimatedTimeLeft
      modifies this`lastLoaded, this`lastTime
      ensures Valid()
      ensures uploadProgress == Percent(loaded, total) && uploadedBytes == loaded
      ensures isUploading == old(isUploading) && selectedFile == old(selectedFile)
      ensures successCalls == old(successCalls)
      ensures now <= old(lastTime) ==>
                && lastLoaded == old(lastLoaded) && lastTime == old(lastTime)
                && speeds == old(speeds) && speedHistory == old(speedHistory)
                && uploadSpeed == old(uploadSpeed) && estimatedTimeLeft == old(estimatedTimeLeft)
      ensures now > old(lastTime) ==>
                var v := InstantSpeed(old(lastLoaded), old(lastTime), loaded, now);
                var avg := ReportedSpeed(speedHistory, v);
                && speeds == old(speeds) + [v]
                && speedHistory == Push(old(speedHistory), v)
                && lastLoaded == loaded && lastTime == now
                && uploadSpeed == Shown(SpeedFields(avg))
                && estimatedTimeLeft == (if avg > 0.0 then Shown(TimeFields(Eta(loaded, total, avg)))
                                         else old(estimatedTimeLeft))
      ensures old(Tracking()) ==> Tracking() && View() == Step(old(View()), Sample(loaded, total, now))
    {
      uploadProgress := Percent(loaded, total);
      uploadedBytes := loaded;
      if now > lastTime {
        UpdateSpeed(loaded, total, now);
      }
    }

    /** The part of `trackProgress` that runs when the clock advanced: the
        speed since the previous sample is recorded, the speed shown becomes
        the history's mean (the speed itself when the history is empty), the
        time left is recomputed only from a positive speed, and the sample
        becomes the new reference point. */
    method UpdateSpeed(loaded: int, total: int, now: int)
      requires Valid() && now > lastTime
      modifies this`speedHistory, this`speeds, this`uploadSpeed, this`estimatedTimeLeft
      modifies this`lastLoaded, this`lastTime
      ensures Valid()
      ensures var v := InstantSpeed(old(lastLoaded), old(lastTime), loaded, now);
              var avg := ReportedSpeed(speedHistory, v);
              && speeds == old(speeds) + [v]
              && speedHistory == Push(old(speedHistory), v)
              && lastLoaded == loaded && lastTime == now
              && uploadSpeed == Shown(SpeedFields(avg))
              && estimatedTimeLeft == (if avg > 0.0 then Shown(TimeFields(Eta(loaded, total, avg)))
                                       else old(estimatedTimeLeft))
      ensures old(Tracking()) ==> Tracking() && View() == Step(old(View()), Sample(loaded, total, now))
    {
      var currentSpeed := InstantSpeed(lastLoaded, lastTime, loaded, now);
      WindowStep(speeds, currentSpeed);
      RecordSpeed(currentSpeed);
      var avgSpeed := ReportedSpeed(speedHistory, currentSpeed);
      uploadSpeed := Shown(SpeedFields(avgSpeed));
      if avgSpeed > 0.0 {
        estimatedTimeLeft := Shown(TimeFields(Eta(loaded, total, avgSpeed)));
      }
      lastLoaded := loaded;
      lastTime := now;
    }

    /** The history update of `trackProgress`: a positive speed is pushed,
        and the oldest entry shifted out once there are more than five. */
    method RecordSpeed(currentSpeed: real)
      requires Valid()
      modifies this`speedHistory, this`speeds
      ensures Valid()
      ensures speeds == old(speeds) + [currentSpeed]
      ensures speedHistory == Push(old(speedHistory), currentSpeed)
    {
      speeds := speeds + [currentSpeed];
      if currentSpeed > 0.0 {
        speedHistory := speedHistory + [currentSpeed];
        if |speedHistory| > MaxSpeedSamples {
          speedHistory := speedHistory[1..];
        }
      }
    }

    /** `uploadNote(title, file, trackProgress)` until it settles: it reports
        each of its progress samples, in order, to the tracker. Afterwards the
        tracker is where replaying the samples leaves it, and the figures are
        those of the last sample (still zero when there was none). */
    method Upload(ghost startTime: int, samples: seq<Sample>)
      requires forall i :: 0 <= i < |samples| ==> samples[i].total > 0
      requires Valid() && Tracking() && View() == Started(startTime)
      requires uploadProgress == 0 && uploadedBytes == 0
      modifies this`uploadProgress, this`uploadedBytes
      modifies this`speedHistory, this`speeds, this`uploadSpeed, this`estimatedTimeLeft
      modifies this`lastLoaded, this`lastTime
      ensures Valid() && Tracking() && View() == Replay(Started(startTime), samples)
      ensures samples == [] ==> uploadProgress == 0 && uploadedBytes == 0
      ensures samples != [] ==>
                var last := samples[|samples| - 1];
                uploadProgress == Percent(last.loaded, last.total) && uploadedBytes == last.loaded
    {
      for i := 0 to |samples|
        invariant Valid() && Tracking()
        invariant View() == Replay(Started(startTime), samples[..i])
        invariant i == 0 ==> uploadProgress == 0 && uploadedBytes == 0
        invariant i > 0 ==>
                    uploadProgress == Percent(samples[i - 1].loaded, samples[i - 1].total) &&
                    uploadedBytes == samples[i - 1].loaded
      {
        DeliverSample(startTime, samples, i);
      }
      assert samples[..|samples|] == samples;
    }

    /** `uploadNote` reporting its progress sample `i` to the tracker it was
        handed: the tracker moves on from the samples before it by one step. */
    method DeliverSample(ghost startTime: int, samples: seq<Sample>, i: nat)
      requires i < |samples| && samples[i].total > 0
      requires Valid() && Tracking() && View() == Replay(Started(startTime), samples[..i])
      modifies this`uploadProgress, this`uploadedBytes
      modifies this`speedHistory, this`speeds, this`uploadSpeed, this`estimatedTimeLeft
      modifies this`lastLoaded, this`lastTime
      ensures Valid() && Tracking() && View() == Replay(Started(startTime), samples[..i + 1])
      ensures uploadProgress == Percent(samples[i].loaded, samples[i].total) && uploadedBytes == samples[i].loaded
    {
      ReplayNext(Started(startTime), samples, i);
      TrackProgress(samples[i].loaded, samples[i].total, samples[i].time);
    }

    /** The end of `onSubmit` once the upload settled: on success every
        figure is cleared, the selection dropped and `onSuccess` called; on
        failure the figures stay as the last sample left them. Either way
        uploading is off. */
    method FinishSubmit(succeeded: bool)
      modifies this
      ensures !isUploading
      ensures succeeded ==>
                && uploadProgress == 0 && uploadedBytes == 0
                && uploadSpeed == Blank && estimatedTimeLeft == Blank
                && selectedFile == None
                && successCalls == old(successCalls) + (if hasOnSuccess then 1 else 0)
      ensures !succeeded ==>
                && uploadProgress == old(uploadProgress) && uploadedBytes == old(uploadedBytes)
                && uploadSpeed == old(uploadSpeed) && estimatedTimeLeft == old(estimatedTimeLeft)
                && selectedFile == old(selectedFile) && successCalls == old(successCalls)
      ensures lastLoaded == old(lastLoaded) && lastTime == old(lastTime)
      ensures speedHistory == old(speedHistory) && speeds == old(speeds)
    {
      if succeeded {
        selectedFile := None;
        uploadProgress := 0;
        uploadedBytes := 0;
        uploadSpeed := Blank;
        estimatedTimeLeft := Blank;
        if hasOnSuccess {
          successCalls := successCalls + 1;
        }
      }
      isUploading := false;
    }

    /** A whole `onSubmit`: the upload calls the tracker once per sample (at
        the sample's time) and then succeeds or fails. Uploading is on for
        every sample and off at the end; after a failure the figures are
        those of the last sample, after a success they are cleared. */
    method Submit(startTime: int, samples: seq<Sample>, succeeded: bool)
      requires forall i :: 0 <= i < |samples| ==> samples[i].total > 0
      modifies this
      ensures Valid() && Tracking() && !isUploading
      ensures |speeds| <= |samples|
      ensures speeds == Replay(Started(startTime), samples).speeds
      ensures !succeeded ==>
                && uploadSpeed == Replay(Started(startTime), samples).speed
                && estimatedTimeLeft == Replay(Started(startTime), samples).timeLeft
      ensures succeeded ==>
                && uploadProgress == 0 && uploadedBytes == 0
                && uploadSpeed == Blank && estimatedTimeLeft == Blank && selectedFile == None
                && successCalls == old(successCalls) + (if hasOnSuccess then 1 else 0)
      ensures !succeeded ==> selectedFile == old(selectedFile) && successCalls == old(successCalls)
      ensures !succeeded && samples == [] ==>
                && uploadProgress == 0 && uploadedBytes == 0
                && uploadSpeed == Calculating && estimatedTimeLeft == Calculating
      ensures !succeeded && samples != [] ==>
                var last := samples[|samples| - 1];
                uploadProgress == Percent(last.loaded, last.total) && uploadedBytes == last.loaded
    {
      StartSubmit(startTime);
      Upload(startTime, samples);
      ReplayExtends(Started(startTime), samples);
      FinishSubmit(succeeded);
    }
  }
}
