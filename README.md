# DySense Kinect v2 driver: pixel conversions and capture state

This project models two pieces of the DySense Kinect v2 sensor driver.

- **The pixel-buffer conversions** (`module Extensions`, `extensions.dfy`).
  These turn one Kinect frame into the buffer and stride that go to the bitmap constructor:
  - a BGRA colour frame becomes a Bgr32 image;
  - a depth frame becomes a grey Bgr32 image, with samples inside the reliable depth window keeping their low byte and all other samples black;
  - a depth frame becomes a Gray16 image, scaled by 7 with 16-bit wrap-around, or passed through unchanged;
  - an infrared frame becomes a grey Bgr32 image, each sample shifted right by seven bits and cast to a byte.

  The buffer sizes follow the driver's left-to-right integer arithmetic. The colour buffer is exactly four bytes per pixel. The depth and infrared Bgr32 buffers are `39/8` bytes per pixel. The Gray16 scratch buffers are `23/16` elements per pixel; the pass-through conversion hands on its `w*h` samples instead. Bytes past the last pixel stay zero.

- **The capture state of the driver** (`module KinectDriver`, `kinect_v2.dfy`).
  The frame-arrival handler stores the newest colour image, depth samples and infrared image, each stamped with the arrival clock `Time`. The loop step `ReadNewData` saves the pending colour image as `Color.jpg` in the output directory once the colour stream is enabled and, on `SysTime`, more than one period has passed since the last colour frame arrived. It then reports one data record and clears the image, so the same image is never saved twice. The infrared and depth save branches of `ReadNewData` are disabled in the driver and never run.

The class `KinectDriver.KinectV2` keeps the driver's fields and updates them in place. The depth buffer is an array, allocated by the first depth frame and overwritten by later ones. Each method is proved against a pure step function on a `DriverState` value:
- `FrameArrivedStep` for the handler;
- `ReadNewDataStep` for the loop step.

The lemmas about those functions carry the driver's promises. They cover the save condition in both directions, the strict comparison, that a failing step changes nothing, and that no image is saved twice. Over any interleaving of handler and loop steps (`Run`), they also show that records and written files stay paired and that the depth buffer keeps its size.

The clocks `Time` and `SysTime` are `real` inputs of each step. The records handed to `HandleData` are appended to `records`. The files the driver writes are appended to `writes` as `JpegWrite(path, quality, image)`.

The grey Bgr32 conversions for depth and infrared run the same loop with a different per-sample grey level. That loop is `Extensions.FillGreyBgr32`, and the grey level is `Extensions.Intensity.Of`. The driver's `ReadNewData` returns nothing; the model returns its local `success` flag so that the failure case can be stated.

The model follows the code, in which the "last" time of a stream is its arrival time on `Time`, compared against `SysTime`. The period is therefore measured from the latest colour frame, not from the latest save. Reading both clocks as one time line, a loop step that comes within one period of a colour frame saves nothing, so while colour frames keep arriving more often than once per period no colour image is saved at all (`FreshFrameBlocksSave`, `FrequentFramesNeverSave`).

## Model

| member | source | states |
|---|---|---|
| Extensions.ColorBufferLength | DySenseKinectV2/Extensions.cs:18-20 | The colour buffer holds exactly 4 bytes per pixel, because bytes per pixel are rounded before the multiplication. |
| Extensions.Bgr32ScratchLength | DySenseKinectV2/Extensions.cs:45-46 | The depth/infrared Bgr32 buffer, `w*h*(32+7)/8` taken left to right, is `(39*w*h)/8` bytes. That is at least `4*w*h`, so every pixel fits. |
| Extensions.Gray16ScratchLength | DySenseKinectV2/Extensions.cs:81 | The Gray16 buffer, `w*h*(16+7)/8/2`, is `(23*w*h)/16` elements. That is at least one per pixel. |
| Extensions.Stride | DySenseKinectV2/Extensions.cs:31 | The stride `width*bits/8` is `4*width` for Bgr32 and `2*width` for Gray16. |
| Extensions.InfraredIntensityTruncates | DySenseKinectV2/Extensions.cs:148-150 | `ir >> 7` reaches up to 511. The byte cast makes every sample from 0x8000 up 256 levels darker than its shifted value. |
| Extensions.GreyBgr32At | DySenseKinectV2/Extensions.cs:53-61 | In the reference grey image, bytes `4i`, `4i+1` and `4i+2` are sample `i`'s grey level and byte `4i+3` is 0. |
| Extensions.GreyBufferAt | DySenseKinectV2/Extensions.cs:46-61 | Every byte of a grey Bgr32 buffer is either the grey level of sample `k/4` (for a B, G or R byte of a pixel) or 0 (for the fourth byte and for the tail past the last pixel). |
| Extensions.ColorToBgr32 | DySenseKinectV2/Extensions.cs:14-34 | Returns a `4*w*h`-byte buffer equal to the BGRA frame data, and stride `4*w`. |
| Extensions.FillGreyBgr32 | DySenseKinectV2/Extensions.cs:46-62 | Returns a buffer of the `39/8`-per-pixel length. Writes each sample's grey level into B, G and R of pixel `i`, leaves byte `4i+3` zero and leaves every byte after the last pixel zero. `colorIndex` stays in bounds. |
| Extensions.DepthToBgr32 | DySenseKinectV2/Extensions.cs:36-67 | The buffer is the reference grey image of the samples, with `d%256` inside `[minDepth, maxDepth]` and 0 outside, followed by zeros up to `(39*w*h)/8` bytes. The stride is `4*w`. |
| Extensions.DepthToGray16Scaled | DySenseKinectV2/Extensions.cs:70-112 | The buffer has `(23*w*h)/16` elements. Element `i < w*h` is `(d_i*7) mod 65536`, and every later element is 0. The stride is `2*w`. |
| Extensions.DepthToGray16Original | DySenseKinectV2/Extensions.cs:114-132 | The image handed on is the sample array unchanged, of length `w*h`. The stride is `2*w`. The scratch buffer does not affect the result. |
| Extensions.InfraredToBgr32 | DySenseKinectV2/Extensions.cs:134-162 | The buffer is the reference grey image with level `(ir/128)%256` per sample, followed by zeros up to `(39*w*h)/8` bytes. The stride is `4*w`. |
| KinectDriver.ColorImage | DySenseKinectV2/KinectV2.cs:153-154 | The colour image stored on arrival is a Bgr32 image of `4*w*h` bytes with stride `4*w`. |
| KinectDriver.InfraredImage | DySenseKinectV2/KinectV2.cs:179-180 | The infrared image stored on arrival is a Bgr32 image of `(39*w*h)/8` bytes with stride `4*w`. |
| KinectDriver.CombinePath | DySenseKinectV2/KinectV2.cs:94 | The colour file path starts with the output directory and ends with the file name, joined by a backslash unless the directory is empty or already ends in a separator or drive colon (in both directions). |
| KinectDriver.MinLoopPeriod | DySenseKinectV2/KinectV2.cs:50 | The loop period is no larger than any of the three capture periods and equals one of them. |
| KinectDriver.CloseKeepsIsClosed | DySenseKinectV2/KinectV2.cs:66-82 | `Close` disposes and closes but nulls nothing, so it never changes what `IsClosed` reports. |
| KinectDriver.ClosedNeverAfterSensorFound | DySenseKinectV2/KinectV2.cs:53-82 | After `Setup` has found a sensor, `Close` leaves a closed sensor and a disposed reader, and `IsClosed` is false. |
| KinectDriver.ReadNewDataSaves | DySenseKinectV2/KinectV2.cs:88-103 | A loop step saves if and only if the period is `>= 0`, `SysTime - lastColorTime > period` and an image is pending. A save appends `JpegWrite(dir+Color.jpg, 90, image)` and `DataRecord(Time, SysTime, that path)`, and clears the image. Otherwise nothing is written or reported and the image stays. |
| KinectDriver.ExactPeriodIsNotDue | DySenseKinectV2/KinectV2.cs:88 | The comparison is strict: when exactly one period has elapsed, the step changes nothing and succeeds. |
| KinectDriver.DisabledColorNeverSaved | DySenseKinectV2/KinectV2.cs:89-90 | A negative colour period never saves and the step succeeds. |
| KinectDriver.MissingImageOnlyFails | DySenseKinectV2/KinectV2.cs:99-102 | When colour is due but no image is pending, the state is unchanged and `success` is false. |
| KinectDriver.ReadNewDataLeavesOtherStreams | DySenseKinectV2/KinectV2.cs:84-142 | A loop step never touches the arrival times, the depth buffer or the infrared image. It only appends to records and writes, and it writes no file other than the colour JPEG (the infrared and depth branches never run). |
| KinectDriver.NoDoubleSave | DySenseKinectV2/KinectV2.cs:92-97 | Two consecutive loop steps add at most one record and one file. |
| KinectDriver.LoopStepsWithoutImageSaveNothing | DySenseKinectV2/KinectV2.cs:92-102 | With no image pending, any number of loop steps saves nothing. |
| KinectDriver.LoopStepsSaveAtMostOnce | DySenseKinectV2/KinectV2.cs:92-97 | Any number of loop steps with no frame arrival in between add at most one record and one file. |
| KinectDriver.FreshFrameBlocksSave | DySenseKinectV2/KinectV2.cs:88-97 | A colour frame arriving at `t` followed by a loop step whose `SysTime` is at most `t + period` writes and reports nothing, reports success, and leaves that frame's image pending, because the arrival reset `_lastColorTime` (line 153). |
| KinectDriver.FrequentFramesNeverSave | DySenseKinectV2/KinectV2.cs:88-97 | Over any interleaving in which every loop step's `SysTime` is within one period of the latest colour frame's arrival `Time`, no record is reported and no file is written. |
| KinectDriver.FrameArrivedUpdatesStreams | DySenseKinectV2/KinectV2.cs:149-182 | A present frame stamps its stream with `Time` and replaces its image or samples. An absent frame leaves its stream unchanged. Nothing is written or reported. |
| KinectDriver.DepthBufferSize | DySenseKinectV2/KinectV2.cs:163-170 | The first depth frame allocates a `w*h` buffer, and a later frame keeps the buffer's size. |
| KinectDriver.RunKeepsDepthBufferSize | DySenseKinectV2/KinectV2.cs:163-170 | Over any interleaving of arrivals and loop steps, an allocated depth buffer keeps its size. |
| KinectDriver.RunKeepsRecordsMatched | DySenseKinectV2/KinectV2.cs:94-96 | Over any interleaving, records and written files pair one to one, and each pair names the colour file in the output directory. |
| KinectDriver.KinectV2.constructor | DySenseKinectV2/KinectV2.cs:41-51 | Stores the four settings. Sets the closing time to 3.0 and the loop period to the minimum of the three periods. Starts with null streams, zero times and nothing written. |
| KinectDriver.KinectV2.Setup | DySenseKinectV2/KinectV2.cs:53-64 | Stores the default sensor. A found sensor is opened and gets a subscribed reader; otherwise the reader is left as it was. |
| KinectDriver.KinectV2.Close | DySenseKinectV2/KinectV2.cs:66-77 | Disposes a present reader and closes a present sensor, leaving both references in place. |
| KinectDriver.KinectV2.ReadNewData | DySenseKinectV2/KinectV2.cs:84-142 | The new fields and `success` are exactly `ReadNewDataStep` of the old fields, and only the colour image, records and writes can change. |
| KinectDriver.KinectV2.ReaderMultiSourceFrameArrived | DySenseKinectV2/KinectV2.cs:144-183 | The stream fields are exactly `FrameArrivedStep` of the old ones, and the frame limits changes to the stream fields and the depth array, so the sensor, reader, records and writes are untouched. An allocated depth array is reused in place; otherwise the first depth frame allocates a fresh one. |

## Left out

- Kinect SDK calls (`GetDefault`, `Open`, `OpenMultiSourceFrameReader`, `AcquireFrame`, the frame copy calls) are foreign code. Their results are inputs: the frames' data as sequences whose length matches the driver's buffer, and whether a sensor was found as a boolean.
- The colour copy (`CopyRawFrameDataToArray` or `CopyConvertedFrameDataToArray`, `DySenseKinectV2/Extensions.cs:22-29`) is modelled as delivering the BGRA bytes. The choice between raw and converted data is made inside the SDK.
- `BitmapSource.Create` is left out: a conversion's result is its buffer and stride. `WriteJpeg` and `WriteTiff` are encoders and file I/O: a save is recorded as a `JpegWrite` entry.
- The `SensorBase` harness (its run loop, the transport behind `HandleData`, `Health`, and the `Time`/`SysTime` clocks) is not part of this model. The clocks are inputs and `HandleData` appends to `records`.
- `Health` is not modelled. It is assigned only inside the disabled depth branch, so `ReadNewData` never changes it.
- The disabled infrared and depth save branches (`DySenseKinectV2/KinectV2.cs:105-141`) never run and are not modelled.
- Periods and timestamps are IEEE doubles in the driver; the model uses exact `real` arithmetic.
- The handler runs on the Kinect event thread and `ReadNewData` on the loop thread. They are modelled as interleaved atomic steps (`Run`), so races inside a step are not captured.
- The model does not relate the two clocks: `Time` stamps arrivals and `SysTime` is compared against them, and each is an independent input. The save-frequency lemmas compare them as if they were one time line; if the base class's clocks drift apart, due-ness shifts by the difference.
- `SysTime` is read twice in `ReadNewData` (lines 88 and 96); the model takes one value per step.
- KinectDriver.FrameArrivedStep: stamps every stream of one notification with one `time`; the handler reads `Time` separately for colour, depth and infrared (`DySenseKinectV2/KinectV2.cs:153`, `163`, `179`), with conversions in between, so the three stamps of one notification may differ in the driver.
- KinectDriver.ReadNewDataStep: a save always succeeds. In the driver `WriteJpeg` can throw (opening the file, `DySenseKinectV2/Extensions.cs:171`); then `HandleData` and the clearing of the image (`DySenseKinectV2/KinectV2.cs:96-97`) are skipped and the image stays pending for the next step. File-system failures are not modelled.
- The constructor's settings come from a dictionary with `Convert` calls; the model takes them as a `Settings` value, and a missing key or bad value is not modelled.
- A null multi-source frame reference from `AcquireFrame` (line 146) would throw in the driver; the model always receives a notification.
- KinectDriver.CombinePath: does not model rooted file names or invalid path characters; the only file name the driver combines is the constant `Color.jpg`.
- Extensions.Bgr32ScratchLength: does not model 32-bit `int` overflow of `w*h*39`, which needs frames of more than 55 million pixels, far beyond the sensor's 1920x1080.
- Extensions.Gray16ScratchLength: likewise does not model 32-bit overflow of `w*h*23`.
- `DySenseKinectV2/MainWindow.xaml.cs` and `DySenseKinectV2/Program.cs` are user-interface and start-up code and are not part of this model.
