# pxCore video frame path, rt error codes, RPC value reader and DASH EventStream in Dafny

This project models four pieces of pxCore (Spark):

- **The video frame path of `pxVideo.cpp`.** This is the hand-off from the AAMP media player thread to the render thread.
  - `RGB_ADJUST` and `CONVERT_YUV420PtoRGB24` turn an I420 frame into packed B,G,R bytes. They are modelled as a method on an `array` that is proved equal to a per-pixel specification (`yuv_convert.dfy`).
  - `updateYUVFrame` and `updateYUVFrame_not` draw each frame into a shared offscreen framebuffer under a mutex and queue a `newAampFrame` notification. `pxVideo::draw` composites that framebuffer.
  - The file-scope globals these functions share become one `FrameSink` object: `gAampFbo`, `FBO_W`/`FBO_H`, the mutex, the static scratch vector `rgbVect`, `pxVideoObj` and the task queue. The framebuffer, upload, draw, mutex and queue calls are recorded in order, and whether `setFramebuffer` succeeds is an input (`frame_update.dfy`). `getCurrentFramebuffer` is read as the current binding without being recorded, and clears and texture parameters are not modelled.
- **The scriptable side of `pxVideo`.** This covers the `url` and `autoPlay` properties, `play`, `pause`, `stop` and `onInit` driving the playback engine (calls to the engine are recorded), and `isRotated` (`video_object.dfy`).
- **`rtError.cpp`.** The class and code of a 32-bit error, `rtStrError`, and the built-in name table (`rt_error.dfy`).
- **`rtValueReader::read`.** It turns the tagged JSON form of an RPC value into an rtValue (`rt_value_reader.dfy`).
- **libdash's `EventStream`.** This is the record of the MPEG-DASH EventStream element (ISO/IEC 23009-1, section 5.10.2), with its getters, setters and append-only event list (`event_stream.dfy`).

In several places the code departs from what the usual formula or a reader of its names would expect. The model follows the code:

- **Green channel sign.** The usual BT.601 green formula subtracts both chroma terms: G = Y − 0.3455(U−128) − 0.7169(V−128). Line 448 groups it as Y − (0.3455(U−128) − 0.7169(V−128)), so the V term is added. `GreenLevel` keeps the code's grouping, and `GreenRisesWithV` states the consequence.
- **Chroma plane order.** In I420 the plane at w·h holds U. The conversion reads V from it (the code names it `uPlane`) and reads U from the plane after it. `updateYUVFrame_not` uploads the plane at w·h to the U texture.
- **Framebuffer resize.** The code calls `updateFramebuffer` on every frame, even when the size already matches, and the model does the same.
- **Framebuffer size.** `updateYUVFrame` sizes the framebuffer to 1280×720 whatever the frame's size. `updateYUVFrame_not` sizes it to the frame.
- **Failed bind.** The code sets `existingFbo` to true unconditionally, so the frame is drawn even when binding the framebuffer failed.
- **pause.** The code returns RT_OK and does nothing; the engine keeps playing.
- **stop.** The code calls the engine's `Stop` on every call, with no guard against repeated stops.
- **draw.** The code draws the framebuffer at (0, 0) with size 1280×720, not at the object's position and size, and its punch-through branch is dead (`if (false)`).
- **Strings in RPC values.** `rtValueReader::read` builds the rtString from a `const char*`, so a JSON string with an embedded NUL is cut at it.

## Model

| member | source | states |
|---|---|---|
| YuvConvert.RgbAdjust | examples/pxScene2d/src/pxVideo.cpp:420-423 | negative levels give 0, levels above 255 give 255, and a level in [0, 255] is truncated: r ≤ tmp < r + 1 |
| YuvConvert.RedLevel | examples/pxScene2d/src/pxVideo.cpp:447 | red before clamping is at or above the luma exactly when V ≥ 128, and at or below it exactly when V ≤ 128 |
| YuvConvert.GreenLevel | examples/pxScene2d/src/pxVideo.cpp:448 | with the code's grouping, green before clamping is at least the luma when U ≤ 128 ≤ V, at most the luma when V ≤ 128 ≤ U, and equal to it for neutral chroma |
| YuvConvert.BlueLevel | examples/pxScene2d/src/pxVideo.cpp:449 | blue before clamping is at or above the luma exactly when U ≥ 128, and at or below it exactly when U ≤ 128 |
| YuvConvert.ConvertPixel | examples/pxScene2d/src/pxVideo.cpp:447-449 | after clamping, each channel of the pixel stays on the same side of Y as its level: B follows U, R follows V, G follows V against U |
| YuvConvert.RgbAdjustMonotone | examples/pxScene2d/src/pxVideo.cpp:420-423 | the clamp never reverses the order of two levels |
| YuvConvert.NeutralChromaIsGrey | examples/pxScene2d/src/pxVideo.cpp:447-449 | with U = V = 128 the converted pixel is (Y, Y, Y) |
| YuvConvert.GreenRisesWithV | examples/pxScene2d/src/pxVideo.cpp:448 | with the code's grouping, raising V never lowers green |
| YuvConvert.LumaInPlane | examples/pxScene2d/src/pxVideo.cpp:441 | the luma index w·i + j of a pixel inside the frame lies in the luma plane |
| YuvConvert.ChromaIndexBound | examples/pxScene2d/src/pxVideo.cpp:442 | the chroma offset (i/2)·(w/2) + j/2 is largest for the bottom-right pixel |
| YuvConvert.PixelReadsInBounds | examples/pxScene2d/src/pxVideo.cpp:433-444 | every luma and chroma read for a pixel inside the frame lies below the read extent, with V read from the plane at w·h and U from the plane at w·h + w·h/4 |
| YuvConvert.EvenFrameReadExtent | examples/pxScene2d/src/pxVideo.cpp:433-444 | for even positive w and h the reads end exactly at the w·h·3/2 bytes of an I420 frame |
| YuvConvert.FrameByteChannels | examples/pxScene2d/src/pxVideo.cpp:452-454 | output bytes 3p, 3p+1 and 3p+2 hold the B, G and R of pixel number p |
| YuvConvert.FramePixelLayout | examples/pxScene2d/src/pxVideo.cpp:441-454 | pixel (i, j), pixel number p = w·i + j, occupies bytes 3p, 3p+1 and 3p+2, which hold the clamped blue, green and red levels of its Y, U and V samples |
| YuvConvert.StorePixel | examples/pxScene2d/src/pxVideo.cpp:441-454 | one inner-loop step stores the three bytes of pixel (i, j) at 3(w·i + j), +1 and +2, equal to the frame's bytes there, adds one to the write count of exactly those three bytes, and changes no other byte |
| YuvConvert.ConvertYuv420PToRgb24 | examples/pxScene2d/src/pxVideo.cpp:424-457 | the first 3·w·h bytes of the output become the converted frame, each written exactly once (the write count of every byte, incremented at each store, ends at 1); the bytes after them are unchanged |
| FrameUpdate.DrainQueueAppend | examples/pxScene2d/src/pxVideo.cpp:288-295 | running queued newAampFrame tasks runs older tasks first: draining a + b notifies as draining a, then b |
| FrameUpdate.NewAampFrame | examples/pxScene2d/src/pxVideo.cpp:288-295 | the task notifies at most one object: the context's object when the context pointer is non-null, nobody when it is null |
| FrameUpdate.EachFrameNotifiesOnce | examples/pxScene2d/src/pxVideo.cpp:288-295 | a queued task whose context is a live object notifies that object exactly once, after all earlier tasks |
| FrameUpdate.NullContextNotifiesNobody | examples/pxScene2d/src/pxVideo.cpp:288-295 | a task with a null context notifies nobody |
| FrameUpdate.LockBracketsFrame | examples/pxScene2d/src/pxVideo.cpp:491-573 | a frame's calls start with the lock and end with unlock followed by the single addTask; no lock, unlock or task occurs in between |
| FrameUpdate.BindOnlyWhenNotCurrent | examples/pxScene2d/src/pxVideo.cpp:502-508 | setFramebuffer(gAampFbo) is called if and only if the framebuffer was not already current |
| FrameUpdate.RestoreExactlyWhenBound | examples/pxScene2d/src/pxVideo.cpp:568-571 | the previous binding is re-bound if and only if the bind returned PX_OK; when the framebuffer was already current, no setFramebuffer call is made |
| FrameUpdate.RenderRunsRegardless | examples/pxScene2d/src/pxVideo.cpp:509-512 | the rendering steps follow the bind attempt whether or not it succeeded |
| FrameUpdate.PlaneUploads | examples/pxScene2d/src/pxVideo.cpp:370-406 | the three-plane path only uploads and draws: four steps ending in the draw, Y from offset 0, and the U texture from the plane at w·h, which the CPU conversion reads as V, and the V texture from the plane after it, which the conversion reads as U |
| FrameUpdate.FrameSink.constructor | examples/pxScene2d/src/pxVideo.cpp:73-83 | initially there is no framebuffer, FBO_W/FBO_H are 1280/720, the scratch vector is a new empty array that nothing else refers to, the queue is empty and the mutex is free |
| FrameUpdate.FrameSink.AcquireLock | examples/pxScene2d/src/pxVideo.cpp:491 | takes the free mutex and records the lock call |
| FrameUpdate.FrameSink.ReleaseLock | examples/pxScene2d/src/pxVideo.cpp:572 | releases the held mutex and records the unlock call |
| FrameUpdate.FrameSink.EnsureFramebuffer | examples/pxScene2d/src/pxVideo.cpp:492-499 | creates the framebuffer when it is null and otherwise resizes it, on every call |
| FrameUpdate.FrameSink.BindFramebuffer | examples/pxScene2d/src/pxVideo.cpp:502-508 | binds the framebuffer only when it is not current; the binding changes exactly when that call succeeds |
| FrameUpdate.FrameSink.RestoreFramebuffer | examples/pxScene2d/src/pxVideo.cpp:568-571 | re-binds the previous target exactly when the earlier bind returned PX_OK |
| FrameUpdate.FrameSink.Notify | examples/pxScene2d/src/pxVideo.cpp:573 | appends one newAampFrame task with pxVideoObj as its context |
| FrameUpdate.FrameSink.GrowScratch | examples/pxScene2d/src/pxVideo.cpp:518-523 | the scratch vector is resized only when it is too small, keeps its old bytes, zero-fills the rest, and never shrinks |
| FrameUpdate.FrameSink.RenderConverted | examples/pxScene2d/src/pxVideo.cpp:518-557 | after growing the scratch vector, its first w·h·3 bytes hold the converted frame, which is uploaded as a w×h RGB texture |
| FrameUpdate.FrameSink.UpdateYuvFrame | examples/pxScene2d/src/pxVideo.cpp:473-575 | a null frame changes nothing. Otherwise: the framebuffer becomes 1280×720; the binding is restored unless the restore fails; the scratch vector holds the converted frame and has not shrunk; exactly one task is queued; the calls are lock, create or resize, optional bind, upload and draw, optional restore, unlock, addTask. Mutex free and framebuffer-current-only-if-present are kept |
| FrameUpdate.FrameSink.UpdateYuvFramePlanes | examples/pxScene2d/src/pxVideo.cpp:330-417 | as UpdateYuvFrame, but the framebuffer gets the frame's size, the three planes are uploaded instead of a converted frame, and FBO_W/FBO_H and the scratch vector are untouched |
| FrameUpdate.FrameSink.Draw | examples/pxScene2d/src/pxVideo.cpp:600-606 | when the framebuffer exists, it is drawn at (0, 0, 1280, 720) under the mutex; otherwise nothing happens |
| FrameUpdate.ThreeFramesThenDrain | examples/pxScene2d/src/pxVideo.cpp:288-606 | on a new sink, two converted frames (the second with a failed restore) and a three-plane frame notify the object three times, leave the video framebuffer current at the last frame's size, and the converted frame is what the scratch vector holds |
| VideoObject.PlayCalls | examples/pxScene2d/src/pxVideo.cpp:815-818 | play makes at most one engine call, a Tune of the url, and makes it if and only if the url is not empty |
| VideoObject.Video.constructor | examples/pxScene2d/src/pxVideo.cpp:297-312 | a new video has an empty url, autoPlay off and has made no engine call |
| VideoObject.Video.Url | examples/pxScene2d/src/pxVideo.cpp:762-766 | returns RT_OK and the stored url |
| VideoObject.Video.SetUrl | examples/pxScene2d/src/pxVideo.cpp:768-773 | stores the url, returns RT_OK and changes nothing else |
| VideoObject.Video.AutoPlay | examples/pxScene2d/src/pxVideo.cpp:799-803 | returns RT_OK and the stored flag |
| VideoObject.Video.SetAutoPlay | examples/pxScene2d/src/pxVideo.cpp:805-810 | stores the flag, returns RT_OK and changes nothing else |
| VideoObject.Video.Play | examples/pxScene2d/src/pxVideo.cpp:812-820 | returns RT_OK; calls Tune(url) when the url is not empty, and otherwise does nothing |
| VideoObject.Video.Pause | examples/pxScene2d/src/pxVideo.cpp:822-826 | returns RT_OK and changes nothing |
| VideoObject.Video.Stop | examples/pxScene2d/src/pxVideo.cpp:828-832 | returns RT_OK and always calls the engine's Stop |
| VideoObject.Video.OnInit | examples/pxScene2d/src/pxVideo.cpp:319-328 | plays if and only if autoPlay is set, then resolves the ready promise |
| VideoObject.SetPropertiesThenInit | examples/pxScene2d/src/pxVideo.cpp:762-832 | setting url and autoPlay and reading them back round-trips; initialising then stopping tunes the url once exactly when autoPlay is on and the url is non-empty, then stops |
| VideoObject.IsRotated | examples/pxScene2d/src/pxVideo.cpp:610-627 | true if and only if some entry 1, 2, 4, 6, 8 or 9 of the matrix is further than 0.01 from zero |
| VideoObject.IsRotatedReadsOnlyRotationEntries | examples/pxScene2d/src/pxVideo.cpp:616-621 | no other entry is looked at: matrices that agree on those six entries agree on isRotated |
| VideoObject.ScaleTranslateNotRotated | examples/pxScene2d/src/pxVideo.cpp:610-627 | scale-and-translate matrices are not rotated, the identity among them |
| VideoObject.ZRotationIsRotated | examples/pxScene2d/src/pxVideo.cpp:610-627 | a rotation about the z axis with sine s is rotated if and only if abs(s) > 0.01; in particular a quarter turn is and a half turn is not |
| RtError.ErrorClass | examples/pxScene2d/src/rtError.cpp:12 | the class, bits 16 to 31, is below 65536 |
| RtError.ErrorCode | examples/pxScene2d/src/rtError.cpp:13 | the code, bits 0 to 15, is below 65536 |
| RtError.MakeError | examples/pxScene2d/src/rtError.cpp:12-13 | building an error from a class and a code and taking it apart again gives back that class and code |
| RtError.ClassCodeDecompose | examples/pxScene2d/src/rtError.cpp:12-13 | every 32-bit error is class·65536 + code, computed in 32-bit arithmetic |
| RtError.StrError | examples/pxScene2d/src/rtError.cpp:26-42 | null if and only if the class is neither BUILTIN nor SYSERROR; the built-in class gives a table text, the system class gives the system text of the code |
| RtError.StrErrorBuiltIn | examples/pxScene2d/src/rtError.cpp:64-84 | never null: the result is "UNKNOWN" or an identifier with the RT_ prefix, as each RT_ERROR_CASE stringises its own code |
| RtError.BuiltInUsesLowBits | examples/pxScene2d/src/rtError.cpp:33-35 | for the built-in class the result depends only on the low 16 bits |
| RtError.BuiltInNamesListed | examples/pxScene2d/src/rtError.cpp:69-79 | each of the eleven listed codes maps to its own identifier |
| RtError.BuiltInNamesDistinct | examples/pxScene2d/src/rtError.cpp:69-79 | no two listed codes share a name |
| RtError.UnknownExactlyOutsideTable | examples/pxScene2d/src/rtError.cpp:64-84 | the result is "UNKNOWN" if and only if the code is not listed, so it is never null |
| RtError.BuiltInNameToCode | examples/pxScene2d/src/rtError.cpp:69-79 | the name of a listed code maps back to that code |
| RtError.BuiltInCodeToName | examples/pxScene2d/src/rtError.cpp:69-79 | a known name maps to a code that rtStrError_BuiltIn names with it |
| RtValueReader.NarrowInt8 | examples/pxScene2d/src/rpc/rtValueReader.cpp:24 | the int8 cast gives the value in [-128, 127] congruent to the input modulo 256 |
| RtValueReader.NarrowUInt8 | examples/pxScene2d/src/rpc/rtValueReader.cpp:28 | the uint8 cast gives the value in [0, 255] congruent to the input modulo 256 |
| RtValueReader.NarrowingFixesInRange | examples/pxScene2d/src/rpc/rtValueReader.cpp:23-29 | both casts leave a value that fits unchanged, exactly when it fits, and ignore multiples of 256 |
| RtValueReader.TagOf | examples/pxScene2d/src/rpc/rtValueReader.cpp:8 | the tag compared is the type value reduced modulo 256 into the character range |
| RtValueReader.CString | examples/pxScene2d/src/rpc/rtValueReader.cpp:56-57 | the rtString built from the payload is the longest NUL-free prefix of the JSON string: the whole string when it holds no NUL |
| RtValueReader.Read | examples/pxScene2d/src/rpc/rtValueReader.cpp:3-76 | every tag that is not asserted on returns RT_OK |
| RtValueReader.EmbeddedNulTruncates | examples/pxScene2d/src/rpc/rtValueReader.cpp:54-58 | the string payload `"a\0b"` is stored as `"a"` |
| RtValueReader.ByteTagsNarrow | examples/pxScene2d/src/rpc/rtValueReader.cpp:23-29 | the int8 and uint8 tags store the integer reduced modulo 256 into the signed or unsigned byte range |
| RtValueReader.ReadDescribeRoundTrip | examples/pxScene2d/src/rpc/rtValueReader.cpp:11-60 | reading the document a value is sent as gives that value back under its own tag, whatever `to` held, except that a double comes back as a float and a string is cut at its first NUL; the round trip is exact if and only if the value is neither a double nor a string holding a NUL |
| RtValueReader.UnknownTagKeepsValue | examples/pxScene2d/src/rpc/rtValueReader.cpp:9-75 | a tag matching no case leaves `to` unchanged and still returns RT_OK |
| RtValueReader.HandledTagOverwrites | examples/pxScene2d/src/rpc/rtValueReader.cpp:11-60 | for a handled tag the result does not depend on what `to` held |
| RtValueReader.TagLowBitsOnly | examples/pxScene2d/src/rpc/rtValueReader.cpp:8-9 | adding 256 to the type value selects the same case and gives the same result |
| MpdEventStream.EventStream.constructor | examples/pxScene2d/external/libdash/libdash/libdash/source/mpd/EventStream.cpp:12-19 | a new element has xlinkHref "", xlinkActuate "onRequest", schemeIdUri "", value "", timescale 1 and no events |
| MpdEventStream.EventStream.GetEvents | examples/pxScene2d/external/libdash/libdash/libdash/source/mpd/EventStream.cpp:26-29 | returns the events in insertion order and changes nothing |
| MpdEventStream.EventStream.AddEvent | examples/pxScene2d/external/libdash/libdash/libdash/source/mpd/EventStream.cpp:30-33 | appends the event at the end; earlier events keep their positions and every attribute is unchanged |
| MpdEventStream.EventStream.GetXlinkHref | examples/pxScene2d/external/libdash/libdash/libdash/source/mpd/EventStream.cpp:35-38 | returns the stored attribute unchanged; with SetXlinkHref this is the set-then-get round trip |
| MpdEventStream.EventStream.GetXlinkActuate | examples/pxScene2d/external/libdash/libdash/libdash/source/mpd/EventStream.cpp:44-47 | returns the stored attribute unchanged; with SetXlinkActuate this is the set-then-get round trip |
| MpdEventStream.EventStream.GetSchemeIdUri | examples/pxScene2d/external/libdash/libdash/libdash/source/mpd/EventStream.cpp:53-56 | returns the stored attribute unchanged; with SetSchemeIdUri this is the set-then-get round trip |
| MpdEventStream.EventStream.GetValue | examples/pxScene2d/external/libdash/libdash/libdash/source/mpd/EventStream.cpp:62-65 | returns the stored attribute unchanged; with SetValue this is the set-then-get round trip |
| MpdEventStream.EventStream.GetTimescale | examples/pxScene2d/external/libdash/libdash/libdash/source/mpd/EventStream.cpp:71-74 | returns the stored attribute unchanged; with SetTimescale this is the set-then-get round trip |
| MpdEventStream.EventStream.SetXlinkHref | examples/pxScene2d/external/libdash/libdash/libdash/source/mpd/EventStream.cpp:39-42 | the getter returns the string given; no other field or event changes |
| MpdEventStream.EventStream.SetXlinkActuate | examples/pxScene2d/external/libdash/libdash/libdash/source/mpd/EventStream.cpp:48-51 | the getter returns the string given, with no validation; no other field or event changes |
| MpdEventStream.EventStream.SetSchemeIdUri | examples/pxScene2d/external/libdash/libdash/libdash/source/mpd/EventStream.cpp:57-60 | the getter returns the string given; no other field or event changes |
| MpdEventStream.EventStream.SetValue | examples/pxScene2d/external/libdash/libdash/libdash/source/mpd/EventStream.cpp:66-69 | the getter returns the string given; no other field or event changes |
| MpdEventStream.EventStream.SetTimescale | examples/pxScene2d/external/libdash/libdash/libdash/source/mpd/EventStream.cpp:75-78 | the getter returns the value given, 0 included; no other field or event changes |
| MpdEventStream.SetThenGet | examples/pxScene2d/external/libdash/libdash/libdash/source/mpd/EventStream.cpp:35-78 | after a sequence of sets and appends, each getter returns the last value set, untouched fields keep their defaults, and the events come back in insertion order |

## Left out

- OpenGL work is abstract. Shader set-up (`LoadShader`, `InitYUVShaders`), the `glTexImage2D`/`glDraw*` bodies, clears, texture parameters and the rotation uniform of `updateYUVFrame_not` are either one recorded call (an upload, a draw) or not modelled.
- `makeCurrent` on the shared context is not modelled; the model assumes the context is current.
- pxContext is not part of this model. Its framebuffer calls are modelled on four assumptions:
  - A `setFramebuffer` that fails leaves the current binding as it was, both when binding `gAampFbo` and when restoring `prevFbo`. `FrameSink.BindFramebuffer`, `FrameSink.RestoreFramebuffer` and `BindingAfterFrame` rest on this.
  - `createFramebuffer` always returns a framebuffer, so `gAampFbo` is non-null after it (`FrameSink.EnsureFramebuffer`).
  - Neither `createFramebuffer` nor `updateFramebuffer` changes the current binding.
  - `updateFramebuffer` succeeds and gives the framebuffer the requested size; the source ignores its result. The framebuffer sizes stated by `FrameSink.UpdateYuvFrame` and `FrameSink.UpdateYuvFramePlanes` rest on this.
- The GStreamer main-loop thread, `InitPlayerLoop`, and the concurrency of the two threads are not modelled. The mutex is a ghost flag checked around sequential steps.
- The raw cross-thread `pxVideoObj` pointer is an identity that may be absent. The model cannot capture an object destroyed between enqueue and dequeue.
- The render thread's queue is drained all at once and in order (`DrainQueue`); its pacing is not modelled.
- The `size` argument of `updateYUVFrame` is only logged by the source and is not a parameter here.
- Frame dimensions are natural numbers. The model does not capture the 32-bit `int` overflow of `pixel_w*pixel_h*3` for huge frames, nor negative dimensions.
- FrameUpdate.FrameSink.UpdateYuvFramePlanes: the upload is recorded with offsets and sizes only. The bytes a GPU upload would read are not modelled, so only the buffer length is required.
- `GetImageTexture` (image manager I/O) is not modelled.
- The punch-through setting (`ENABLE_SPARK_VIDEO_PUNCHTHROUGH`, `enablePunchThrough`) and the dead branch of `draw` that reads it are not modelled.
- The TODO property stubs of `pxVideo` (tsbEnabled, closedCaptionsEnabled, position, speed and the others) are not modelled. They return RT_OK without touching their outputs.
- The destructor of `pxVideo` is not modelled.
- In `pxVideoImplAAMP.cpp`, `onInit` plays once itself and once more through `pxVideo::onInit` when autoPlay is set. This subclass is not part of this model.
- Colour levels, the `isRotated` tolerance and the float and double tags use exact reals. IEEE rounding of `double`, `float` and `fabsf` is not modelled, so no result is claimed to be bit-exact.
- `rtStrError_SystemError` (thread-local buffer, `malloc`, `strerror_r`) is abstract. Its result is `SystemText(code)`.
- rtError.h is not part of this model. The class values (0, 0x8000) and code values (0 to 10) are assumed, and the proofs use only that they are distinct.
- rtValue.h is not part of this model. The tag values are the rtValue type characters, and the proofs use only that they are distinct and lie in [0, 127].
- The rapidjson accessors are not modelled; a document missing the "value" or "type" key is not covered.
- RtValueReader.Read: requires the payload to have the shape the accessor for its tag expects, because a mismatched payload is an assertion failure inside rapidjson.
- RtValueReader.Read: the value, object, function and voidPtr tags end in `assert(false)`, so they are excluded by a precondition.
- The destructor of `EventStream`, which frees the events, is not modelled. Events are opaque values of a type parameter.
- RtError.ClassCodeDecompose: states class·65536 + code == e in 32-bit arithmetic only, not as an equation on unbounded integers.
