/**
 * The per-frame update of the shared video framebuffer in pxVideo.cpp:
 * updateYUVFrame (CPU conversion into a 1280x720 framebuffer),
 * updateYUVFrame_not (three-plane upload into a framebuffer of the frame's size),
 * newAampFrame (the render-thread callback) and the framebuffer branch of pxVideo::draw.
 *
 * The file-scope state the source shares between the media-player thread and the
 * render thread (gAampFbo, FBO_W/FBO_H, gAampFboMutex, the static scratch vector of
 * updateYUVFrame, pxVideoObj and gUIThreadQueue) is held by one FrameSink object.
 * The rendering context is abstract: the framebuffer, upload, draw, mutex and queue
 * calls are recorded, in order, in `calls`, and whether setFramebuffer succeeds is
 * an input. getCurrentFramebuffer is read as `current` without being recorded;
 * clears and texture parameters are not modelled. The mutex is a ghost flag; the steps that touch the framebuffer
 * require it to be held.
 */
module FrameUpdate {
  import opened Wrappers
  import opened YuvConvert

  /** Identity of a pxVideo object, as passed through the task queue (pxVideoObj). */
  type ObjectId = nat

  datatype Size = Size(w: nat, h: nat)

  /** The framebuffer the rendering context currently draws into. */
  datatype Binding = Screen | VideoFbo | OtherFbo(id: nat)

  /** The texture a single-channel plane is uploaded to. */
  datatype Plane = YPlane | UPlane | VPlane

  /** One call on the rendering context, on the mutex or on the render-thread queue. */
  datatype Call =
    | Lock
    | Unlock
    | CreateFramebuffer(size: Size)
    | UpdateFramebuffer(size: Size)
    | SetFramebuffer(target: Binding)
    | UploadPlane(plane: Plane, offset: nat, w: nat, h: nat)
    | UploadRgb(w: nat, h: nat, pixels: seq<Byte>)
    | DrawQuad
    | DrawImage(x: int, y: int, w: nat, h: nat)
    | AddTask(context: Option<ObjectId>)

  /** A queued `newAampFrame` call with its context pointer. */
  datatype Task = Task(context: Option<ObjectId>)

  /** The size updateYUVFrame gives the framebuffer, whatever the frame's size. */
  const FixedFboSize := Size(1280, 720)

  /** True when a rendering step list holds only uploads and draws. */
  predicate RenderOnly(render: seq<Call>)
  {
    forall k :: 0 <= k < |render| ==> render[k].UploadPlane? || render[k].UploadRgb? || render[k].DrawQuad?
  }

  /**
   * The calls one non-null frame produces: lock, create or resize the framebuffer,
   * bind it unless it is already current, render, restore the previous binding when
   * the bind returned PX_OK, unlock, then queue one newAampFrame task.
   */
  function FrameCalls(hadFbo: bool, size: Size, prev: Binding, bindOk: bool, render: seq<Call>,
                      obj: Option<ObjectId>): seq<Call>
  {
    [Lock, if hadFbo then UpdateFramebuffer(size) else CreateFramebuffer(size)]
    + (if prev != VideoFbo then [SetFramebuffer(VideoFbo)] else [])
    + render
    + (if prev != VideoFbo && bindOk then [SetFramebuffer(prev)] else [])
    + [Unlock, AddTask(obj)]
  }

  /** FrameCalls appended to a trace is the trace extended one step of a frame at a time. */
  lemma FrameCallsSteps(trace: seq<Call>, hadFbo: bool, size: Size, prev: Binding, bindOk: bool,
                        render: seq<Call>, obj: Option<ObjectId>)
    ensures var bind := if prev != VideoFbo then [SetFramebuffer(VideoFbo)] else [];
            var restore := if prev != VideoFbo && bindOk then [SetFramebuffer(prev)] else [];
            trace + [Lock] + [if hadFbo then UpdateFramebuffer(size) else CreateFramebuffer(size)]
              + bind + render + restore + [Unlock] + [AddTask(obj)]
            == trace + FrameCalls(hadFbo, size, prev, bindOk, render, obj)
  {
  }

  /** The binding after one frame: the previous one, unless the bind worked and the restore did not. */
  function BindingAfterFrame(prev: Binding, bindOk: bool, restoreOk: bool): Binding
  {
    if prev != VideoFbo && bindOk && !restoreOk then VideoFbo else prev
  }

  /** The objects whose onTextureReady runs when newAampFrame is called with `context`. */
  function NewAampFrame(context: Option<ObjectId>): (r: seq<ObjectId>)
    ensures |r| <= 1
    ensures r != [] <==> context.Some?
    ensures forall k :: 0 <= k < |r| ==> r[k] == context.value
  {
    if context.Some? then [context.value] else []
  }

  /** The objects notified when the render thread runs the queued tasks in FIFO order. */
  function DrainQueue(tasks: seq<Task>): seq<ObjectId>
  {
    if tasks == [] then [] else DrainQueue(tasks[..|tasks| - 1]) + NewAampFrame(tasks[|tasks| - 1].context)
  }

  /** Draining a queue runs its older tasks first. */
  lemma {:induction false} DrainQueueAppend(a: seq<Task>, b: seq<Task>)
    ensures DrainQueue(a + b) == DrainQueue(a) + DrainQueue(b)
  {
    if b == [] {
      assert a + b == a;
    } else {
      assert (a + b)[..|a + b| - 1] == a + b[..|b| - 1];
      DrainQueueAppend(a, b[..|b| - 1]);
    }
  }

  /** Each queued task for a live pxVideo object notifies that object once, after all earlier tasks. */
  lemma EachFrameNotifiesOnce(tasks: seq<Task>, obj: ObjectId)
    ensures DrainQueue(tasks + [Task(Some(obj))]) == DrainQueue(tasks) + [obj]
  {
    DrainQueueAppend(tasks, [Task(Some(obj))]);
    assert [Task(Some(obj))][..0] == [];
  }

  /** A task whose context pointer is null notifies nobody. */
  lemma NullContextNotifiesNobody(tasks: seq<Task>)
    ensures DrainQueue(tasks + [Task(None)]) == DrainQueue(tasks)
  {
    DrainQueueAppend(tasks, [Task(None)]);
    assert [Task(None)][..0] == [];
  }

  /**
   * The mutex brackets all framebuffer work of a frame: Lock comes first, Unlock
   * second to last, and neither appears in between; the only task is queued last,
   * after the unlock.
   */
  lemma LockBracketsFrame(hadFbo: bool, size: Size, prev: Binding, bindOk: bool, render: seq<Call>,
                          obj: Option<ObjectId>)
    requires RenderOnly(render)
    ensures var c := FrameCalls(hadFbo, size, prev, bindOk, render, obj);
            |c| >= 4 && c[0] == Lock && c[|c| - 2] == Unlock && c[|c| - 1] == AddTask(obj) &&
            forall k :: 0 < k < |c| - 2 ==> c[k] != Lock && c[k] != Unlock && !c[k].AddTask?
  {
    var c := FrameCalls(hadFbo, size, prev, bindOk, render, obj);
    var bind := if prev != VideoFbo then [SetFramebuffer(VideoFbo)] else [];
    var restore := if prev != VideoFbo && bindOk then [SetFramebuffer(prev)] else [];
    var middle := [if hadFbo then UpdateFramebuffer(size) else CreateFramebuffer(size)] + bind + render + restore;
    assert c == [Lock] + middle + [Unlock, AddTask(obj)];
    forall k | 0 < k < |c| - 2
      ensures c[k] != Lock && c[k] != Unlock && !c[k].AddTask?
    {
      assert c[k] == middle[k - 1];
      var m := k - 1;
      if m >= 1 + |bind| && m < 1 + |bind| + |render| {
        assert middle[m] == render[m - 1 - |bind|];
      }
    }
  }

  /** setFramebuffer(gAampFbo) is called exactly when the framebuffer is not already current. */
  lemma BindOnlyWhenNotCurrent(hadFbo: bool, size: Size, prev: Binding, bindOk: bool, render: seq<Call>,
                               obj: Option<ObjectId>)
    requires RenderOnly(render)
    ensures SetFramebuffer(VideoFbo) in FrameCalls(hadFbo, size, prev, bindOk, render, obj) <==> prev != VideoFbo
  {
    assert forall k :: 0 <= k < |render| ==> render[k] != SetFramebuffer(VideoFbo);
  }

  /**
   * The previous binding is restored exactly when the bind was attempted and
   * returned PX_OK; when the framebuffer was already current no setFramebuffer
   * call is made at all.
   */
  lemma RestoreExactlyWhenBound(hadFbo: bool, size: Size, prev: Binding, bindOk: bool, render: seq<Call>,
                                obj: Option<ObjectId>)
    requires RenderOnly(render)
    ensures var c := FrameCalls(hadFbo, size, prev, bindOk, render, obj);
            (prev != VideoFbo ==> (SetFramebuffer(prev) in c <==> bindOk)) &&
            (prev == VideoFbo ==> forall k :: 0 <= k < |c| ==> !c[k].SetFramebuffer?)
  {
    var c := FrameCalls(hadFbo, size, prev, bindOk, render, obj);
    assert forall k :: 0 <= k < |render| ==> !render[k].SetFramebuffer?;
    assert forall k :: 0 <= k < |render| ==> render[k] != SetFramebuffer(prev);
    if prev == VideoFbo {
      var head := [Lock, if hadFbo then UpdateFramebuffer(size) else CreateFramebuffer(size)];
      assert c == head + render + [Unlock, AddTask(obj)];
      forall k | 0 <= k < |c|
        ensures !c[k].SetFramebuffer?
      {
        if 2 <= k < 2 + |render| {
          assert c[k] == render[k - 2];
        }
      }
    }
  }

  /**
   * The rendering steps run right after the bind attempt whether or not it
   * succeeded (existingFbo is always true): when setFramebuffer fails they draw
   * into whatever was bound before.
   */
  lemma RenderRunsRegardless(hadFbo: bool, size: Size, prev: Binding, bindOk: bool, render: seq<Call>,
                             obj: Option<ObjectId>)
    ensures var c := FrameCalls(hadFbo, size, prev, bindOk, render, obj);
            var start := if prev != VideoFbo then 3 else 2;
            start + |render| <= |c| && c[start..start + |render|] == render
  {
  }

  /** The shared framebuffer state of pxVideo.cpp. */
  class FrameSink {
    var fbo: Option<Size>            // gAampFbo, with its current size
    var fboW: int                    // FBO_W
    var fboH: int                    // FBO_H
    var current: Binding             // the context's current framebuffer
    ghost var locked: bool           // gAampFboMutex is held
    var rgbVect: array<Byte>         // the static scratch vector of updateYUVFrame
    var videoObj: Option<ObjectId>   // pxVideoObj
    var tasks: seq<Task>             // gUIThreadQueue
    var calls: seq<Call>             // calls made, oldest first

    /** Between operations the mutex is free, and the video framebuffer is current only if it exists. */
    ghost predicate Valid()
      reads this
    {
      !locked && (current == VideoFbo ==> fbo.Some?)
    }

    constructor (initial: Binding, obj: Option<ObjectId>)
      requires initial != VideoFbo
      ensures Valid()
      ensures fbo == None && fboW == 1280 && fboH == 720 && current == initial
      ensures fresh(rgbVect) && rgbVect.Length == 0
      ensures videoObj == obj && tasks == [] && calls == []
    {
      fbo := None;
      fboW, fboH := 1280, 720;
      current := initial;
      locked := false;
      rgbVect := new Byte[0];
      videoObj := obj;
      tasks := [];
      calls := [];
    }

    method AcquireLock()
      requires !locked
      modifies this`locked, this`calls
      ensures locked && calls == old(calls) + [Lock]
    {
      locked := true;
      calls := calls + [Lock];
    }

    method ReleaseLock()
      requires locked
      modifies this`locked, this`calls
      ensures !locked && calls == old(calls) + [Unlock]
    {
      locked := false;
      calls := calls + [Unlock];
    }

    /**
     * createFramebuffer when gAampFbo is null, updateFramebuffer otherwise. Both are
     * taken to succeed with the requested size (the source ignores what
     * updateFramebuffer returns), and neither changes the current binding.
     */
    method EnsureFramebuffer(size: Size)
      requires locked
      modifies this`fbo, this`calls
      ensures fbo == Some(size)
      ensures calls == old(calls) + [if old(fbo).None? then CreateFramebuffer(size) else UpdateFramebuffer(size)]
    {
      if fbo.None? {
        calls := calls + [CreateFramebuffer(size)];
      } else {
        calls := calls + [UpdateFramebuffer(size)];
      }
      fbo := Some(size);
    }

    /**
     * Binds the video framebuffer unless it is already current; `replaced` is
     * `replacedFbo == PX_OK`, and `bindOk` is what setFramebuffer returns. A failed
     * setFramebuffer is taken to leave the binding as it was.
     */
    method BindFramebuffer(bindOk: bool) returns (prev: Binding, replaced: bool)
      requires locked && fbo.Some?
      modifies this`current, this`calls
      ensures prev == old(current)
      ensures replaced == (prev != VideoFbo && bindOk)
      ensures current == if replaced then VideoFbo else prev
      ensures calls == old(calls) + (if prev != VideoFbo then [SetFramebuffer(VideoFbo)] else [])
    {
      prev := current;
      replaced := false;
      if prev != VideoFbo {
        calls := calls + [SetFramebuffer(VideoFbo)];
        if bindOk {
          current := VideoFbo;
          replaced := true;
        }
      }
    }

    /**
     * Re-binds `prev` when the earlier bind returned PX_OK; `restoreOk` is what that
     * call returns, and a failed restore is taken to leave the binding as it was.
     */
    method RestoreFramebuffer(prev: Binding, replaced: bool, restoreOk: bool)
      requires locked
      modifies this`current, this`calls
      ensures current == if replaced && restoreOk then prev else old(current)
      ensures calls == old(calls) + (if replaced then [SetFramebuffer(prev)] else [])
    {
      if replaced {
        calls := calls + [SetFramebuffer(prev)];
        if restoreOk {
          current := prev;
        }
      }
    }

    /** gUIThreadQueue->addTask(newAampFrame, pxVideoObj, NULL). */
    method Notify()
      modifies this`tasks, this`calls
      ensures tasks == old(tasks) + [Task(videoObj)]
      ensures calls == old(calls) + [AddTask(videoObj)]
    {
      tasks := tasks + [Task(videoObj)];
      calls := calls + [AddTask(videoObj)];
    }

    /** Resizes the scratch vector to n bytes when it is shorter, keeping its contents; it never shrinks. */
    method GrowScratch(n: nat)
      modifies this`rgbVect
      ensures old(rgbVect.Length) >= n ==> rgbVect == old(rgbVect)
      ensures old(rgbVect.Length) < n ==> fresh(rgbVect) && rgbVect.Length == n
      ensures old(rgbVect.Length) < n ==> rgbVect[..old(rgbVect.Length)] == old(rgbVect[..])
      ensures old(rgbVect.Length) < n ==> forall k :: old(rgbVect.Length) <= k < n ==> rgbVect[k] == 0
    {
      if rgbVect.Length < n {
        var was := rgbVect;
        rgbVect := new Byte[n](k reads was => if 0 <= k < was.Length then was[k] else 0);
      }
    }

    /**
     * The drawing block of updateYUVFrame: grows the scratch vector to w*h*3 bytes,
     * converts the frame into it, uploads it as a w x h RGB texture and draws a quad.
     */
    method RenderConverted(yuv: seq<Byte>, w: nat, h: nat)
      requires |yuv| >= ReadExtent(w, h)
      modifies this`rgbVect, this`calls, rgbVect
      ensures rgbVect.Length == if old(rgbVect.Length) < 3 * (w * h) then 3 * (w * h) else old(rgbVect.Length)
      ensures old(rgbVect.Length) >= 3 * (w * h) ==> rgbVect == old(rgbVect)
      ensures old(rgbVect.Length) < 3 * (w * h) ==> fresh(rgbVect)
      ensures rgbVect[..3 * (w * h)] == Rgb24Frame(yuv, w, h)
      ensures old(rgbVect.Length) >= 3 * (w * h) ==> rgbVect[3 * (w * h)..] == old(rgbVect[3 * (w * h)..])
      ensures calls == old(calls) + [UploadRgb(w, h, Rgb24Frame(yuv, w, h)), DrawQuad]
    {
      var rgbLen := w * h * 3;
      GrowScratch(rgbLen);
      ghost var writes := ConvertYuv420PToRgb24(yuv, rgbVect, w, h);
      calls := calls + [UploadRgb(w, h, rgbVect[..rgbLen]), DrawQuad];
    }

    /**
     * updateYUVFrame: for a non-null frame, sizes the framebuffer to 1280x720,
     * binds it, converts the frame into the scratch vector, uploads and draws it,
     * restores the previous binding, unlocks and queues one notification.
     * A null frame changes nothing.
     */
    method UpdateYuvFrame(yuv: Option<seq<Byte>>, w: nat, h: nat, bindOk: bool, restoreOk: bool)
      requires Valid()
      requires yuv.Some? ==> |yuv.value| >= ReadExtent(w, h)
      modifies this, rgbVect
      ensures Valid()
      ensures yuv.None? ==> unchanged(this) && unchanged(rgbVect)
      ensures yuv.Some? ==> fbo == Some(FixedFboSize) && fboW == 1280 && fboH == 720
      ensures yuv.Some? ==> current == BindingAfterFrame(old(current), bindOk, restoreOk)
      ensures videoObj == old(videoObj)
      ensures yuv.Some? ==> tasks == old(tasks) + [Task(videoObj)]
      ensures yuv.Some? ==> rgbVect.Length == if old(rgbVect.Length) < 3 * (w * h) then 3 * (w * h) else old(rgbVect.Length)
      ensures yuv.Some? && old(rgbVect.Length) >= 3 * (w * h) ==> rgbVect == old(rgbVect)
      ensures yuv.Some? && old(rgbVect.Length) < 3 * (w * h) ==> fresh(rgbVect)
      ensures yuv.Some? ==> rgbVect[..3 * (w * h)] == Rgb24Frame(yuv.value, w, h)
      ensures yuv.Some? && old(rgbVect.Length) >= 3 * (w * h) ==> rgbVect[3 * (w * h)..] == old(rgbVect[3 * (w * h)..])
      ensures yuv.Some? ==> calls == old(calls) + FrameCalls(old(fbo).Some?, FixedFboSize, old(current), bindOk,
                                                             [UploadRgb(w, h, Rgb24Frame(yuv.value, w, h)), DrawQuad],
                                                             videoObj)
    {
      if yuv.Some? {
        AcquireLock();
        EnsureFramebuffer(FixedFboSize);
        fboW, fboH := 1280, 720;
        var prev, replaced := BindFramebuffer(bindOk);
        var existingFbo := true;   // set unconditionally, so the frame is drawn even when the bind failed
        if existingFbo || replaced {
          RenderConverted(yuv.value, w, h);
        }
        RestoreFramebuffer(prev, replaced, restoreOk);
        ReleaseLock();
        Notify();
        FrameCallsSteps(old(calls), old(fbo).Some?, FixedFboSize, old(current), bindOk,
                        [UploadRgb(w, h, Rgb24Frame(yuv.value, w, h)), DrawQuad], videoObj);
      }
    }

    /**
     * updateYUVFrame_not: the same discipline with a framebuffer of the frame's
     * own size and the three planes uploaded as textures (Y at offset 0, U at w*h,
     * V at w*h + w*h/4) before one quad is drawn. FBO_W and FBO_H are not touched.
     */
    method UpdateYuvFramePlanes(yuv: Option<seq<Byte>>, w: nat, h: nat, bindOk: bool, restoreOk: bool)
      requires Valid()
      requires yuv.Some? ==> |yuv.value| >= w * h + w * h / 4 + (w / 2) * (h / 2)
      modifies this
      ensures Valid()
      ensures yuv.None? ==> unchanged(this)
      ensures yuv.Some? ==> fbo == Some(Size(w, h))
      ensures fboW == old(fboW) && fboH == old(fboH) && rgbVect == old(rgbVect) && videoObj == old(videoObj)
      ensures yuv.Some? ==> current == BindingAfterFrame(old(current), bindOk, restoreOk)
      ensures yuv.Some? ==> tasks == old(tasks) + [Task(videoObj)]
      ensures yuv.Some? ==> calls == old(calls) + FrameCalls(old(fbo).Some?, Size(w, h), old(current), bindOk,
                                                             PlaneUploads(w, h), videoObj)
    {
      if yuv.Some? {
        AcquireLock();
        EnsureFramebuffer(Size(w, h));
        var prev, replaced := BindFramebuffer(bindOk);
        var existingFbo := true;   // set unconditionally, as in updateYUVFrame
        if existingFbo || replaced {
          calls := calls + PlaneUploads(w, h);
        }
        RestoreFramebuffer(prev, replaced, restoreOk);
        ReleaseLock();
        Notify();
        FrameCallsSteps(old(calls), old(fbo).Some?, Size(w, h), old(current), bindOk, PlaneUploads(w, h), videoObj);
      }
    }

    /** The framebuffer branch of pxVideo::draw: composites gAampFbo at 1280x720 under the mutex, if it exists. */
    method Draw()
      requires Valid()
      modifies this`locked, this`calls
      ensures Valid()
      ensures calls == old(calls) + (if fbo.Some? then [Lock, DrawImage(0, 0, 1280, 720), Unlock] else [])
    {
      if fbo.Some? {
        AcquireLock();
        calls := calls + [DrawImage(0, 0, 1280, 720)];
        ReleaseLock();
      }
    }
  }

  /** The uploads and draw of updateYUVFrame_not: Y at full size, then U and V at half size. */
  function PlaneUploads(w: nat, h: nat): (render: seq<Call>)
    ensures RenderOnly(render) && |render| == 4 && render[3] == DrawQuad
    ensures render[0].UploadPlane? && render[0].plane == YPlane && render[0].offset == 0
    ensures render[1].UploadPlane? && render[1].plane == UPlane && render[1].offset == VPlaneStart(w, h)
    ensures render[2].UploadPlane? && render[2].plane == VPlane && render[2].offset == UPlaneStart(w, h)
  {
    [UploadPlane(YPlane, 0, w, h), UploadPlane(UPlane, w * h, w / 2, h / 2),
     UploadPlane(VPlane, w * h + w * h / 4, w / 2, h / 2), DrawQuad]
  }

  /**
   * A render thread's view of three frames on a new sink with pxVideoObj set: a
   * converted frame whose bind and restore both work, one whose restore fails,
   * and a three-plane frame; then the framebuffer is drawn and the queue drained.
   * Every frame notifies the object once, and the failed restore leaves the video
   * framebuffer current, so the third frame does not bind it again.
   */
  method ThreeFramesThenDrain(yuv: seq<Byte>, obj: ObjectId)
    returns (notified: seq<ObjectId>, binding: Binding, size: Option<Size>, pixels: seq<Byte>)
    requires |yuv| >= 6
    ensures notified == [obj, obj, obj]
    ensures binding == VideoFbo && size == Some(Size(2, 2))
    ensures pixels == Rgb24Frame(yuv, 2, 2)
  {
    var sink := new FrameSink(Screen, Some(obj));
    assert ReadExtent(2, 2) == 6;
    sink.UpdateYuvFrame(Some(yuv), 2, 2, true, true);
    sink.UpdateYuvFrame(Some(yuv), 2, 2, true, false);
    pixels := sink.rgbVect[..12];
    sink.UpdateYuvFramePlanes(Some(yuv), 2, 2, true, true);
    sink.Draw();
    EachFrameNotifiesOnce([], obj);
    EachFrameNotifiesOnce([Task(Some(obj))], obj);
    EachFrameNotifiesOnce([Task(Some(obj)), Task(Some(obj))], obj);
    notified := DrainQueue(sink.tasks);
    binding, size := sink.current, sink.fbo;
  }
}
