/**
 * The per-stream state of the Kinect v2 driver: the frame-arrival handler
 * that stores the newest colour image, infrared image and depth samples with
 * their arrival times, and the loop step that saves the pending colour image
 * once it is due and clears it.
 *
 * The handler and the loop step run on two threads in the driver; here each
 * is one atomic step. The clocks `Time` and `SysTime` of the sensor base
 * class are real-valued inputs, the records handed to `HandleData` are
 * appended to `records`, and every file the driver writes is appended to
 * `writes`.
 */
module KinectDriver {
  import opened Wrappers
  import opened Extensions

  // ---------------------------------------------------------------------
  // Values
  // ---------------------------------------------------------------------

  /** The image the driver keeps for a stream: the buffer and stride handed
      to the bitmap constructor. */
  datatype Bitmap = Bitmap(width: nat, height: nat, format: PixelFormat, pixels: seq<uint8>, stride: nat)

  /** What the sensor delivers for one stream in one notification. */
  datatype ColorFrame = ColorFrame(width: nat, height: nat, bgra: seq<uint8>) {
    predicate Valid() { |bgra| == ColorBufferLength(width * height) }
  }

  datatype DepthFrame = DepthFrame(width: nat, height: nat, samples: seq<uint16>) {
    predicate Valid() { |samples| == width * height }
  }

  datatype InfraredFrame = InfraredFrame(width: nat, height: nat, samples: seq<uint16>) {
    predicate Valid() { |samples| == width * height }
  }

  /** One multi-source notification: any of the three frames may be absent. */
  datatype MultiSourceFrame = MultiSourceFrame(color: Option<ColorFrame>, depth: Option<DepthFrame>, infrared: Option<InfraredFrame>)

  /** The record handed to `HandleData`: `utc_time`, `sys_time`, `file_path`. */
  datatype DataRecord = DataRecord(utcTime: real, sysTime: real, filePath: string)

  /** A file the driver writes. */
  datatype FileWrite = JpegWrite(path: string, quality: nat, image: Bitmap)

  /** The recognised settings. A negative period disables a stream, zero
      captures as fast as frames arrive. */
  datatype Settings = Settings(outDirectory: string, colorCapturePeriod: real, depthCapturePeriod: real, irCapturePeriod: real)

  const JpegQuality: nat := 90
  const ColorFileName: string := "Color.jpg"
  const MaxClosingTime: real := 3.0

  /** The colour image `ToBitmap` builds from a colour frame. */
  function ColorImage(f: ColorFrame): (b: Bitmap)
    requires f.Valid()
    ensures b.format == Bgr32 && |b.pixels| == 4 * (f.width * f.height) && b.stride == 4 * f.width
  {
    Bitmap(f.width, f.height, Bgr32, f.bgra, Stride(f.width, Bgr32))
  }

  /** The grey image `ToBitmap` builds from an infrared frame. */
  function InfraredImage(f: InfraredFrame): (b: Bitmap)
    requires f.Valid()
    ensures b.format == Bgr32 && |b.pixels| == Bgr32ScratchLength(f.width * f.height) && b.stride == 4 * f.width
  {
    var length := Bgr32ScratchLength(f.width * f.height);
    Bitmap(f.width, f.height, Bgr32, GreyBgr32(f.samples, InfraredShift) + Zeros(length - 4 * |f.samples|), Stride(f.width, Bgr32))
  }

  /** `Path.Combine` for a relative file name, as the .NET Framework does it
      on Windows: the file name alone after an empty directory, appended
      directly after a directory that ends in a separator or a drive colon,
      and after a backslash otherwise. */
  function CombinePath(directory: string, fileName: string): (path: string)
    ensures directory <= path
    ensures path == directory + fileName || path == directory + "\\" + fileName
    ensures path == directory + fileName <==> directory == [] || directory[|directory| - 1] in {'\\', '/', ':'}
  {
    if directory == [] then fileName
    else if directory[|directory| - 1] in {'\\', '/', ':'} then directory + fileName
    else directory + "\\" + fileName
  }

  /** The smaller of two periods. */
  function Min(a: real, b: real): real {
    if a <= b then a else b
  }

  /** The loop period the driver asks of its base class: the smallest of the
      three capture periods. */
  function MinLoopPeriod(colorPeriod: real, depthPeriod: real, irPeriod: real): (m: real)
    ensures m <= colorPeriod && m <= depthPeriod && m <= irPeriod
    ensures m == colorPeriod || m == depthPeriod || m == irPeriod
  {
    Min(Min(colorPeriod, depthPeriod), irPeriod)
  }

  // ---------------------------------------------------------------------
  // Sensor connection
  // ---------------------------------------------------------------------

  datatype SensorStatus = SensorOpen | SensorClosed
  datatype ReaderStatus = ReaderSubscribed | ReaderDisposed

  /** The `_sensor` and `_reader` references (None stands for null). */
  datatype Connection = Connection(sensor: Option<SensorStatus>, reader: Option<ReaderStatus>) {

    /** `Setup`: the default sensor is stored whether or not one was found;
        a found sensor is opened and a frame reader is opened on it. */
    function AfterSetup(sensorFound: bool): Connection {
      if sensorFound then Connection(Some(SensorOpen), Some(ReaderSubscribed))
      else Connection(None, reader)
    }

    /** `Close`: disposes the reader and closes the sensor, but leaves both
        references in place. */
    function AfterClose(): Connection {
      Connection(if sensor.Some? then Some(SensorClosed) else None,
                 if reader.Some? then Some(ReaderDisposed) else None)
    }

    /** `IsClosed`: both references are null. */
    predicate IsClosed() {
      reader.None? && sensor.None?
    }
  }

  /** Closing never changes what `IsClosed` reports. */
  lemma CloseKeepsIsClosed(c: Connection)
    ensures c.AfterClose().IsClosed() == c.IsClosed()
  {
  }

  /** Once `Setup` has found a sensor, `IsClosed` stays false after `Close`. */
  lemma ClosedNeverAfterSensorFound(c: Connection)
    ensures !c.AfterSetup(true).AfterClose().IsClosed()
    ensures c.AfterSetup(true).AfterClose() == Connection(Some(SensorClosed), Some(ReaderDisposed))
  {
  }

  // ---------------------------------------------------------------------
  // The per-stream state and its two steps
  // ---------------------------------------------------------------------

  /** The driver's stream fields as a value (None stands for null). */
  datatype DriverState = DriverState(
    lastColor: Option<Bitmap>, lastColorTime: real,
    depthData: Option<seq<uint16>>, lastDepthTime: real,
    lastIR: Option<Bitmap>, lastIRTime: real,
    records: seq<DataRecord>, writes: seq<FileWrite>)

  /** Fields of a fresh driver: null references, zero times, nothing written. */
  const InitialState := DriverState(None, 0.0, None, 0.0, None, 0.0, [], [])

  /** Colour is due when the stream is enabled and strictly more than one
      period has passed since the last colour frame arrived. */
  predicate ColorDue(colorPeriod: real, lastColorTime: real, sysTime: real) {
    colorPeriod >= 0.0 && sysTime - lastColorTime > colorPeriod
  }

  /** The result of one loop step: the new state and the local `success`. */
  datatype StepResult = StepResult(next: DriverState, success: bool)

  /** `ReadNewData`: a due colour image, if one is pending, is written to
      `Color.jpg` in the output directory, reported, and cleared; a due
      colour stream with no pending image only sets `success` to false. The
      infrared and depth branches are disabled and do nothing. */
  function ReadNewDataStep(colorPeriod: real, outDirectory: string, s: DriverState, time: real, sysTime: real): StepResult
  {
    if !ColorDue(colorPeriod, s.lastColorTime, sysTime) then StepResult(s, true)
    else match s.lastColor
      case None => StepResult(s, false)
      case Some(image) =>
        var filePath := CombinePath(outDirectory, ColorFileName);
        StepResult(s.(lastColor := None,
                      writes := s.writes + [JpegWrite(filePath, JpegQuality, image)],
                      records := s.records + [DataRecord(time, sysTime, filePath)]),
                   true)
  }

  /** A notification the handler can process: every frame present is well
      formed, and a depth frame matches the size of a depth buffer that is
      already allocated (the sensor's copy demands it). */
  predicate FrameFits(s: DriverState, f: MultiSourceFrame) {
    && (f.color.Some? ==> f.color.value.Valid())
    && (f.infrared.Some? ==> f.infrared.value.Valid())
    && (f.depth.Some? ==> f.depth.value.Valid()
                          && (s.depthData.Some? ==> |f.depth.value.samples| == |s.depthData.value|))
  }

  /** `Reader_MultiSourceFrameArrived`: each frame present replaces its
      stream's data and stamps it with the arrival time; the depth buffer is
      allocated by the first depth frame and overwritten afterwards. */
  function FrameArrivedStep(s: DriverState, time: real, f: MultiSourceFrame): DriverState
    requires FrameFits(s, f)
  {
    var afterColor :=
      if f.color.Some? then s.(lastColorTime := time, lastColor := Some(ColorImage(f.color.value))) else s;
    var afterDepth :=
      if f.depth.Some? then afterColor.(lastDepthTime := time, depthData := Some(f.depth.value.samples)) else afterColor;
    if f.infrared.Some? then afterDepth.(lastIRTime := time, lastIR := Some(InfraredImage(f.infrared.value))) else afterDepth
  }

  // ---------------------------------------------------------------------
  // Properties of one loop step
  // ---------------------------------------------------------------------

  /** A loop step saves exactly when colour is enabled, due and pending. A
      save appends one colour file and one record stamped with both clocks
      and naming that file, and clears the pending image; otherwise nothing is
      written or reported. */
  lemma ReadNewDataSaves(colorPeriod: real, outDirectory: string, s: DriverState, time: real, sysTime: real)
    ensures var r := ReadNewDataStep(colorPeriod, outDirectory, s, time, sysTime);
      var path := CombinePath(outDirectory, "Color.jpg");
      if colorPeriod >= 0.0 && sysTime - s.lastColorTime > colorPeriod && s.lastColor.Some? then
        && r.next.records == s.records + [DataRecord(time, sysTime, path)]
        && r.next.writes == s.writes + [JpegWrite(path, 90, s.lastColor.value)]
        && r.next.lastColor == None
        && r.success
      else
        && r.next.records == s.records
        && r.next.writes == s.writes
        && r.next.lastColor == s.lastColor
  {
  }

  /** The comparison is strict: when exactly one period has elapsed the step
      changes nothing and reports success. */
  lemma ExactPeriodIsNotDue(colorPeriod: real, outDirectory: string, s: DriverState, time: real, sysTime: real)
    requires sysTime - s.lastColorTime == colorPeriod
    ensures ReadNewDataStep(colorPeriod, outDirectory, s, time, sysTime) == StepResult(s, true)
  {
  }

  /** A disabled colour stream is never saved. */
  lemma DisabledColorNeverSaved(colorPeriod: real, outDirectory: string, s: DriverState, time: real, sysTime: real)
    requires colorPeriod < 0.0
    ensures ReadNewDataStep(colorPeriod, outDirectory, s, time, sysTime) == StepResult(s, true)
  {
  }

  /** A due colour stream with no pending image leaves the state as it was and
      only reports failure. */
  lemma MissingImageOnlyFails(colorPeriod: real, outDirectory: string, s: DriverState, time: real, sysTime: real)
    requires colorPeriod >= 0.0 && sysTime - s.lastColorTime > colorPeriod
    requires s.lastColor == None
    ensures ReadNewDataStep(colorPeriod, outDirectory, s, time, sysTime) == StepResult(s, false)
  {
  }

  /** A loop step touches nothing but the pending colour image, the records
      and the written files: the arrival times, the infrared image and the
      depth buffer are unchanged, and every file it writes is the colour
      JPEG. */
  lemma ReadNewDataLeavesOtherStreams(colorPeriod: real, outDirectory: string, s: DriverState, time: real, sysTime: real)
    ensures var n := ReadNewDataStep(colorPeriod, outDirectory, s, time, sysTime).next;
      && n.lastColorTime == s.lastColorTime
      && n.depthData == s.depthData && n.lastDepthTime == s.lastDepthTime
      && n.lastIR == s.lastIR && n.lastIRTime == s.lastIRTime
      && s.writes <= n.writes && s.records <= n.records
      && forall i :: |s.writes| <= i < |n.writes| ==> n.writes[i].path == CombinePath(outDirectory, "Color.jpg")
  {
  }

  /** Two loop steps with no frame arrival in between save at most once. */
  lemma NoDoubleSave(colorPeriod: real, outDirectory: string, s: DriverState,
                     time1: real, sysTime1: real, time2: real, sysTime2: real)
    ensures var s1 := ReadNewDataStep(colorPeriod, outDirectory, s, time1, sysTime1).next;
      var s2 := ReadNewDataStep(colorPeriod, outDirectory, s1, time2, sysTime2).next;
      && |s2.records| <= |s.records| + 1
      && |s2.writes| <= |s.writes| + 1
  {
  }

  // ---------------------------------------------------------------------
  // Properties of one frame arrival
  // ---------------------------------------------------------------------

  /** A present frame stamps its stream with the arrival time and replaces its
      data; an absent frame leaves its stream as it was. Nothing is written or
      reported. */
  lemma FrameArrivedUpdatesStreams(s: DriverState, time: real, f: MultiSourceFrame)
    requires FrameFits(s, f)
    ensures var n := FrameArrivedStep(s, time, f);
      && (if f.color.Some? then n.lastColorTime == time && n.lastColor == Some(ColorImage(f.color.value))
          else n.lastColorTime == s.lastColorTime && n.lastColor == s.lastColor)
      && (if f.infrared.Some? then n.lastIRTime == time && n.lastIR == Some(InfraredImage(f.infrared.value))
          else n.lastIRTime == s.lastIRTime && n.lastIR == s.lastIR)
      && (if f.depth.Some? then n.lastDepthTime == time && n.depthData == Some(f.depth.value.samples)
          else n.lastDepthTime == s.lastDepthTime && n.depthData == s.depthData)
      && n.records == s.records && n.writes == s.writes
  {
  }

  /** The depth buffer takes the size of the first depth frame, and once
      allocated keeps its size. */
  lemma DepthBufferSize(s: DriverState, time: real, f: MultiSourceFrame)
    requires FrameFits(s, f)
    ensures var n := FrameArrivedStep(s, time, f);
      && (s.depthData.Some? ==> n.depthData.Some? && |n.depthData.value| == |s.depthData.value|)
      && (s.depthData.None? && f.depth.Some? ==>
            n.depthData.Some? && |n.depthData.value| == f.depth.value.width * f.depth.value.height)
  {
  }

  // ---------------------------------------------------------------------
  // Runs: any interleaving of frame arrivals and loop steps
  // ---------------------------------------------------------------------

  /** One atomic step of the driver's two threads. */
  datatype DriverStep = FrameArrival(time: real, frame: MultiSourceFrame) | LoopStep(time: real, sysTime: real)

  function Apply(cfg: Settings, s: DriverState, step: DriverStep): DriverState
    requires step.FrameArrival? ==> FrameFits(s, step.frame)
  {
    match step
    case FrameArrival(time, frame) => FrameArrivedStep(s, time, frame)
    case LoopStep(time, sysTime) => ReadNewDataStep(cfg.colorCapturePeriod, cfg.outDirectory, s, time, sysTime).next
  }

  /** Every notification of the run fits the state it arrives in. */
  predicate Runnable(cfg: Settings, s: DriverState, steps: seq<DriverStep>)
    decreases |steps|
  {
    steps == [] ||
    ((steps[0].FrameArrival? ==> FrameFits(s, steps[0].frame)) && Runnable(cfg, Apply(cfg, s, steps[0]), steps[1..]))
  }

  function Run(cfg: Settings, s: DriverState, steps: seq<DriverStep>): DriverState
    requires Runnable(cfg, s, steps)
    decreases |steps|
  {
    if steps == [] then s else Run(cfg, Apply(cfg, s, steps[0]), steps[1..])
  }

  /** Every record names the file written with it: records and writes pair up
      one to one, and each names the colour file. */
  ghost predicate RecordsMatchWrites(cfg: Settings, s: DriverState) {
    && |s.records| == |s.writes|
    && forall i :: 0 <= i < |s.records| ==>
         s.records[i].filePath == s.writes[i].path == CombinePath(cfg.outDirectory, ColorFileName)
  }

  /** Any run keeps records and written files paired one to one. */
  lemma {:induction false} RunKeepsRecordsMatched(cfg: Settings, s: DriverState, steps: seq<DriverStep>)
    requires Runnable(cfg, s, steps)
    requires RecordsMatchWrites(cfg, s)
    ensures RecordsMatchWrites(cfg, Run(cfg, s, steps))
    decreases |steps|
  {
    if steps != [] {
      var s1 := Apply(cfg, s, steps[0]);
      assert RecordsMatchWrites(cfg, s1) by {
        if steps[0].LoopStep? {
          ReadNewDataSaves(cfg.colorCapturePeriod, cfg.outDirectory, s, steps[0].time, steps[0].sysTime);
        }
      }
      RunKeepsRecordsMatched(cfg, s1, steps[1..]);
    }
  }

  /** Once allocated, the depth buffer keeps its size for the rest of any run. */
  lemma {:induction false} RunKeepsDepthBufferSize(cfg: Settings, s: DriverState, steps: seq<DriverStep>)
    requires Runnable(cfg, s, steps)
    requires s.depthData.Some?
    ensures Run(cfg, s, steps).depthData.Some?
    ensures |Run(cfg, s, steps).depthData.value| == |s.depthData.value|
    decreases |steps|
  {
    if steps != [] {
      var s1 := Apply(cfg, s, steps[0]);
      if steps[0].FrameArrival? {
        DepthBufferSize(s, steps[0].time, steps[0].frame);
      }
      RunKeepsDepthBufferSize(cfg, s1, steps[1..]);
    }
  }

  predicate AllLoopSteps(steps: seq<DriverStep>) {
    forall i :: 0 <= i < |steps| ==> steps[i].LoopStep?
  }

  /** With no colour image pending, loop steps alone never save. */
  lemma {:induction false} LoopStepsWithoutImageSaveNothing(cfg: Settings, s: DriverState, steps: seq<DriverStep>)
    requires AllLoopSteps(steps)
    requires s.lastColor == None
    ensures Runnable(cfg, s, steps)
    ensures Run(cfg, s, steps).records == s.records && Run(cfg, s, steps).writes == s.writes
    decreases |steps|
  {
    if steps != [] {
      var s1 := Apply(cfg, s, steps[0]);
      ReadNewDataSaves(cfg.colorCapturePeriod, cfg.outDirectory, s, steps[0].time, steps[0].sysTime);
      assert AllLoopSteps(steps[1..]) by {
        forall i | 0 <= i < |steps[1..]| ensures steps[1..][i].LoopStep? {
          assert steps[1..][i] == steps[i + 1];
        }
      }
      LoopStepsWithoutImageSaveNothing(cfg, s1, steps[1..]);
    }
  }

  /** Any number of loop steps with no frame arrival in between save at most
      once: the same image is never saved twice. */
  lemma {:induction false} LoopStepsSaveAtMostOnce(cfg: Settings, s: DriverState, steps: seq<DriverStep>)
    requires AllLoopSteps(steps)
    ensures Runnable(cfg, s, steps)
    ensures |Run(cfg, s, steps).records| <= |s.records| + 1
    ensures |Run(cfg, s, steps).writes| <= |s.writes| + 1
    decreases |steps|
  {
    if s.lastColor == None {
      LoopStepsWithoutImageSaveNothing(cfg, s, steps);
    } else if steps != [] {
      var s1 := Apply(cfg, s, steps[0]);
      ReadNewDataSaves(cfg.colorCapturePeriod, cfg.outDirectory, s, steps[0].time, steps[0].sysTime);
      assert AllLoopSteps(steps[1..]) by {
        forall i | 0 <= i < |steps[1..]| ensures steps[1..][i].LoopStep? {
          assert steps[1..][i] == steps[i + 1];
        }
      }
      if s1.lastColor == None {
        LoopStepsWithoutImageSaveNothing(cfg, s1, steps[1..]);
      } else {
        LoopStepsSaveAtMostOnce(cfg, s1, steps[1..]);
      }
    }
  }

  // ---------------------------------------------------------------------
  // What the capture period measures
  // ---------------------------------------------------------------------

  // Due-ness is measured from the arrival of the last colour frame, not from
  // the last save. The lemmas below read both clocks as one time line.

  /** A colour frame followed, no more than one period later, by a loop step
      saves nothing: the new frame reset the arrival time, and the image stays
      pending. */
  lemma FreshFrameBlocksSave(colorPeriod: real, outDirectory: string, s: DriverState,
                             f: ColorFrame, arrival: real, time: real, sysTime: real)
    requires f.Valid()
    requires sysTime - arrival <= colorPeriod
    ensures var n := FrameArrivedStep(s, arrival, MultiSourceFrame(Some(f), None, None));
      var r := ReadNewDataStep(colorPeriod, outDirectory, n, time, sysTime);
      && r.next.records == s.records && r.next.writes == s.writes
      && r.next.lastColor == Some(ColorImage(f))
      && r.success
  {
    var n := FrameArrivedStep(s, arrival, MultiSourceFrame(Some(f), None, None));
    FrameArrivedUpdatesStreams(s, arrival, MultiSourceFrame(Some(f), None, None));
    ReadNewDataSaves(colorPeriod, outDirectory, n, time, sysTime);
  }

  /** Every loop step of `steps` comes no more than `colorPeriod` after the
      latest colour frame, `lastColorTime` being the arrival before the run. */
  predicate ColorKeepsArriving(colorPeriod: real, lastColorTime: real, steps: seq<DriverStep>)
    decreases |steps|
  {
    if steps == [] then true
    else match steps[0]
      case LoopStep(_, sysTime) =>
        sysTime - lastColorTime <= colorPeriod && ColorKeepsArriving(colorPeriod, lastColorTime, steps[1..])
      case FrameArrival(time, frame) =>
        ColorKeepsArriving(colorPeriod, if frame.color.Some? then time else lastColorTime, steps[1..])
  }

  /** While colour frames keep arriving more often than once per period, no
      colour image is ever saved, whatever the interleaving. */
  lemma {:induction false} FrequentFramesNeverSave(cfg: Settings, s: DriverState, steps: seq<DriverStep>)
    requires Runnable(cfg, s, steps)
    requires ColorKeepsArriving(cfg.colorCapturePeriod, s.lastColorTime, steps)
    ensures Run(cfg, s, steps).records == s.records
    ensures Run(cfg, s, steps).writes == s.writes
    decreases |steps|
  {
    if steps != [] {
      var s1 := Apply(cfg, s, steps[0]);
      match steps[0] {
        case LoopStep(time, sysTime) =>
          ReadNewDataSaves(cfg.colorCapturePeriod, cfg.outDirectory, s, time, sysTime);
          ReadNewDataLeavesOtherStreams(cfg.colorCapturePeriod, cfg.outDirectory, s, time, sysTime);
        case FrameArrival(time, frame) =>
          FrameArrivedUpdatesStreams(s, time, frame);
      }
      FrequentFramesNeverSave(cfg, s1, steps[1..]);
    }
  }

  // ---------------------------------------------------------------------
  // The driver object
  // ---------------------------------------------------------------------

  class KinectV2 {
    const colorCapturePeriod: real
    const depthCapturePeriod: real
    const irCapturePeriod: real
    const outDirectory: string
    /** `MinLoopPeriod` of the sensor base class, set once by the constructor. */
    const minLoopPeriod: real
    /** `MaxClosingTime` of the sensor base class, in seconds. */
    const maxClosingTime: real

    var sensor: Option<SensorStatus>
    var reader: Option<ReaderStatus>

    var lastColor: Option<Bitmap>
    var depthData: array?<uint16>
    var lastIR: Option<Bitmap>

    var lastColorTime: real
    var lastDepthTime: real
    var lastIRTime: real

    /** Records handed to `HandleData`, oldest first. */
    var records: seq<DataRecord>
    /** Files written, oldest first. */
    var writes: seq<FileWrite>

    ghost function State(): DriverState
      reads this, depthData
    {
      DriverState(lastColor, lastColorTime,
                  if depthData == null then None else Some(depthData[..]), lastDepthTime,
                  lastIR, lastIRTime, records, writes)
    }

    ghost function Config(): Settings
      reads this
    {
      Settings(outDirectory, colorCapturePeriod, depthCapturePeriod, irCapturePeriod)
    }

    constructor (settings: Settings)
      ensures Config() == settings
      ensures minLoopPeriod == MinLoopPeriod(settings.colorCapturePeriod, settings.depthCapturePeriod, settings.irCapturePeriod)
      ensures maxClosingTime == 3.0
      ensures sensor == None && reader == None
      ensures State() == InitialState
    {
      outDirectory := settings.outDirectory;
      colorCapturePeriod := settings.colorCapturePeriod;
      depthCapturePeriod := settings.depthCapturePeriod;
      irCapturePeriod := settings.irCapturePeriod;
      maxClosingTime := MaxClosingTime;
      minLoopPeriod := Min(Min(settings.colorCapturePeriod, settings.depthCapturePeriod), settings.irCapturePeriod);
      sensor, reader := None, None;
      lastColor, depthData, lastIR := None, null, None;
      lastColorTime, lastDepthTime, lastIRTime := 0.0, 0.0, 0.0;
      records, writes := [], [];
    }

    /** `Setup`, with the outcome of looking for the default sensor as input. */
    method Setup(sensorFound: bool)
      modifies this`sensor, this`reader
      ensures Connection(sensor, reader) == old(Connection(sensor, reader)).AfterSetup(sensorFound)
    {
      sensor := if sensorFound then Some(SensorOpen) else None;
      if sensor.Some? {
        reader := Some(ReaderSubscribed);
      }
    }

    method Close()
      modifies this`sensor, this`reader
      ensures Connection(sensor, reader) == old(Connection(sensor, reader)).AfterClose()
    {
      if reader.Some? {
        reader := Some(ReaderDisposed);
      }
      if sensor.Some? {
        sensor := Some(SensorClosed);
      }
    }

    predicate IsClosed()
      reads this
    {
      Connection(sensor, reader).IsClosed()
    }

    /** The loop step; `success` is the method's local flag. */
    method ReadNewData(time: real, sysTime: real) returns (success: bool)
      modifies this`lastColor, this`records, this`writes
      ensures StepResult(State(), success) == ReadNewDataStep(colorCapturePeriod, outDirectory, old(State()), time, sysTime)
    {
      success := true;

      var needToSaveColor := sysTime - lastColorTime > colorCapturePeriod;
      var colorEnabled := colorCapturePeriod >= 0.0;
      if colorEnabled && needToSaveColor {
        if lastColor.Some? {
          var filePath := CombinePath(outDirectory, ColorFileName);
          writes := writes + [JpegWrite(filePath, JpegQuality, lastColor.value)];
          records := records + [DataRecord(time, sysTime, filePath)];
          lastColor := None;  // so the same image is not saved twice
        } else {
          success := false;
        }
      }
    }

    /** The frame-arrival handler. The depth buffer is allocated once and
        afterwards overwritten in place. */
    method ReaderMultiSourceFrameArrived(time: real, frame: MultiSourceFrame)
      requires FrameFits(State(), frame)
      modifies this`lastColor, this`lastColorTime, this`depthData, this`lastDepthTime, this`lastIR, this`lastIRTime, depthData
      ensures State() == FrameArrivedStep(old(State()), time, frame)
      ensures old(depthData) != null ==> depthData == old(depthData)
      ensures old(depthData) == null && frame.depth.Some? ==> fresh(depthData)
    {
      if frame.color.Some? {
        var f := frame.color.value;
        lastColorTime := time;
        var pixels, stride := ColorToBgr32(f.bgra, f.width, f.height);
        lastColor := Some(Bitmap(f.width, f.height, Bgr32, pixels[..], stride));
      }

      if frame.depth.Some? {
        var f := frame.depth.value;
        lastDepthTime := time;
        if depthData == null {
          depthData := new uint16[f.width * f.height];
        }
        forall i | 0 <= i < depthData.Length {
          depthData[i] := f.samples[i];
        }
        assert depthData[..] == f.samples;
      }

      if frame.infrared.Some? {
        var f := frame.infrared.value;
        lastIRTime := time;
        var pixels, stride := InfraredToBgr32(f.samples, f.width, f.height);
        lastIR := Some(Bitmap(f.width, f.height, Bgr32, pixels[..], stride));
      }
    }
  }
}
