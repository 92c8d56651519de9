/**
 * CameraController (camera/CameraController.kt) as a class. Its fields are
 * the controller's own, grouped by concern into the records of
 * ControllerSpec (the characteristics, the settings, the nullable camera
 * objects as presence flags, the metering regions, the pending-capture
 * counter, the last capture result and the ZSL slot). Each method updates
 * them as the source does and is proved to take the controller from
 * `Snapshot()` to the state the corresponding transition of ControllerSpec
 * gives, keeping the counter invariant. Besides the source's own fields
 * the records carry the stage counts behind the pending counter, the
 * number of AF triggers sent and the ZSL images closed.
 */
module CameraControl {
  import opened Numerics
  import opened CaptureMath
  import opened YuvConversion
  import CS = ControllerSpec

  /**
   * The wait of handleRawCapture for the capture result: up to 50 polls,
   * `arrivals[i]` telling whether the result arrived during poll i. The
   * result is found exactly when it was already there or arrived within
   * the polls.
   */
  method PollForResult(hasResult: bool, arrivals: seq<bool>) returns (found: bool)
    ensures found <==> hasResult || exists i :: 0 <= i < Min(CS.RawResultPolls, |arrivals|) && arrivals[i]
  {
    found := hasResult;
    var attempts := 0;
    while !found && attempts < CS.RawResultPolls
      invariant 0 <= attempts <= CS.RawResultPolls
      invariant found ==> hasResult || exists i :: 0 <= i < Min(CS.RawResultPolls, |arrivals|) && arrivals[i]
      invariant !found ==> !hasResult && forall i :: 0 <= i < Min(attempts, |arrivals|) ==> !arrivals[i]
    {
      if attempts < |arrivals| && arrivals[attempts] {
        found := true;
      }
      attempts := attempts + 1;
    }
  }

  class CameraController {
    var monoFlavor: bool
    /** What openCamera reads from the camera characteristics. */
    var caps: Capabilities
    /** The settings fields, from the output format to the rotation. */
    var settings: CS.Settings
    /** The nullable camera objects: whether each is present. */
    var hw: CS.Hardware
    /** The metering regions set on the preview request, and the AF triggers sent. */
    var focus: CS.Focus
    /** pendingCaptureCount with the stages that account for it. */
    var captures: CS.Captures
    var lastCaptureResult: bool
    /** zslEnabled and latestZslImage, with the images closed so far. */
    var zsl: CS.ZslSlot

    /** The fields as a ControllerState. */
    ghost function Snapshot(): CS.ControllerState
      reads this
    {
      CS.ControllerState(monoFlavor, caps, settings, hw, focus, captures, lastCaptureResult, zsl)
    }

    ghost predicate Valid()
      reads this
    {
      CS.Valid(Snapshot())
    }

    constructor(mono: bool)
      ensures Snapshot() == CS.Initial(mono)
      ensures Valid()
    {
      monoFlavor := mono;
      caps := InitialCapabilities;
      settings := CS.InitialSettings;
      hw := CS.NoHardware;
      focus := CS.Focus(None, None, 0);
      captures := CS.Captures(0, 0, 0, 0, 0, 0);
      lastCaptureResult := false;
      zsl := CS.ZslSlot(false, None, []);
    }

    // -------------------------------------------------------------------
    // Camera lifecycle
    // -------------------------------------------------------------------

    /** openCamera, setupImageReaders and onOpened; returns the formats reported. */
    method OpenCamera(c: Capabilities, rawSizesAvailable: bool) returns (formats: seq<int>)
      requires Valid() && WellFormed(c)
      modifies this
      ensures (Snapshot(), formats) == CS.OpenCamera(old(Snapshot()), c, rawSizesAvailable)
      ensures Valid()
    {
      var supportsRaw := rawSizesAvailable && !monoFlavor;
      caps := c.(supportsRaw := supportsRaw);

      formats := [OutputFormatJpeg];
      if supportsRaw {
        formats := formats + [OutputFormatRaw];
      }
      assert formats == AvailableFormats(supportsRaw);

      var rawReader := hw.rawReader || supportsRaw;
      hw := hw.(jpegReader := true, rawReader := rawReader, zslReader := true, device := true);
    }

    /** onConfigured and startPreview. */
    method OnSessionConfigured()
      requires Valid()
      modifies this
      ensures Snapshot() == CS.OnSessionConfigured(old(Snapshot()))
      ensures Valid()
    {
      if !hw.device {
        return;
      }
      hw := hw.(session := true, previewRequest := true);
      focus := focus.(afRegion := None, aeRegion := None);
      zsl := zsl.(enabled := settings.fast && hw.zslReader);
    }

    /** onDisconnected and onError. */
    method OnDeviceLost()
      requires Valid()
      modifies this
      ensures Snapshot() == CS.OnDeviceLost(old(Snapshot()))
      ensures Valid()
    {
      hw := hw.(device := false);
    }

    method Shutdown()
      requires Valid()
      modifies this
      ensures Snapshot() == CS.Shutdown(old(Snapshot()))
      ensures Valid()
    {
      zsl := CS.DrainSlot(zsl);
      hw := hw.(session := false, device := false, jpegReader := false, rawReader := false, zslReader := false);
    }

    // -------------------------------------------------------------------
    // Setters
    // -------------------------------------------------------------------

    method SetInitialOutputFormat(format: int)
      requires Valid()
      modifies this
      ensures Snapshot() == CS.SetInitialOutputFormat(old(Snapshot()), format)
      ensures Valid()
    {
      settings := settings.(outputFormat := format);
    }

    method SetOutputFormat(format: int)
      requires Valid()
      modifies this
      ensures Snapshot() == CS.SetOutputFormat(old(Snapshot()), format)
      ensures Valid()
    {
      if settings.outputFormat == format {
        return;
      }
      if format == OutputFormatRaw && !caps.supportsRaw {
        return;
      }
      settings := settings.(outputFormat := format);
    }

    method SetRotation(rotation: int)
      requires Valid()
      modifies this
      ensures Snapshot() == CS.SetRotation(old(Snapshot()), rotation)
      ensures Valid()
    {
      settings := settings.(rotation := rotation);
    }

    method SetFlashEnabled(enabled: bool)
      requires Valid()
      modifies this
      ensures Snapshot() == CS.SetFlashEnabled(old(Snapshot()), enabled)
      ensures Valid()
    {
      settings := settings.(flash := enabled);
    }

    method SetOisEnabled(enabled: bool)
      requires Valid()
      modifies this
      ensures Snapshot() == CS.SetOisEnabled(old(Snapshot()), enabled)
      ensures Valid()
    {
      if settings.ois == enabled {
        return;
      }
      settings := settings.(ois := enabled);
    }

    method SetBwMode(enabled: bool)
      requires Valid()
      modifies this
      ensures Snapshot() == CS.SetBwMode(old(Snapshot()), enabled)
      ensures Valid()
    {
      if settings.bw == enabled {
        return;
      }
      settings := settings.(bw := enabled);
    }

    method SetFastMode(enabled: bool)
      requires Valid()
      modifies this
      ensures Snapshot() == CS.SetFastMode(old(Snapshot()), enabled)
      ensures Valid()
    {
      if settings.fast == enabled {
        return;
      }
      if !enabled {
        zsl := CS.DrainSlot(zsl);
      }
      settings := settings.(fast := enabled);
      hw := hw.(session := false);
    }

    method SetAutoExposure(enabled: bool, ev: Option<real>)
      requires Valid()
      modifies this
      ensures Snapshot() == CS.SetAutoExposure(old(Snapshot()), enabled, ev)
      ensures Valid()
    {
      settings := settings.(autoExposure := enabled);
      if ev.Some? {
        settings := settings.(ecIndex := EcIndex(caps, ev.value));
      }
    }

    method SetExposureCompensation(ev: real)
      requires Valid()
      modifies this
      ensures Snapshot() == CS.SetExposureCompensation(old(Snapshot()), ev)
      ensures Valid()
    {
      settings := settings.(ecIndex := EcIndex(caps, ev));
    }

    method SetManualExposure(iso: int, exposureTimeNs: int)
      requires Valid()
      modifies this
      ensures Snapshot() == CS.SetManualExposure(old(Snapshot()), iso, exposureTimeNs)
      ensures Valid()
    {
      settings := settings.(autoExposure := false,
                            manualIso := ClampManualIso(caps, iso),
                            manualExposureNs := ClampExposureNs(caps, exposureTimeNs));
    }

    // -------------------------------------------------------------------
    // Focus
    // -------------------------------------------------------------------

    method TriggerAutofocus()
      modifies this
      ensures Snapshot() == CS.TriggerAutofocus(old(Snapshot()))
    {
      if hw.session && hw.previewRequest {
        focus := focus.(afTriggers := focus.afTriggers + 1);
      }
    }

    method TriggerFocus()
      requires Valid()
      modifies this
      ensures Snapshot() == CS.TriggerFocus(old(Snapshot()))
      ensures Valid()
    {
      if settings.fast {
        return;
      }
      TriggerAutofocus();
    }

    method OnTapToFocus(x: real, y: real, width: real, height: real)
      requires Valid() && width > 0.0 && height > 0.0
      modifies this
      ensures Snapshot() == CS.OnTapToFocus(old(Snapshot()), x, y, width, height)
      ensures Valid()
    {
      if settings.fast {
        return;
      }
      if !(hw.device && hw.session && hw.previewRequest) {
        return;
      }
      if caps.maxAfRegions <= 0 {
        TriggerAutofocus();
        return;
      }
      if caps.activeArray.None? {
        return;
      }
      var rect := TapFocusRect(caps.sensorOrientation, x, y, width, height, caps.activeArray.value);
      var ae := if caps.maxAeRegions > 0 then Some(rect) else focus.aeRegion;
      focus := CS.Focus(Some(rect), ae, focus.afTriggers + 1);
    }

    // -------------------------------------------------------------------
    // Zero-shutter-lag slot
    // -------------------------------------------------------------------

    /** The ZSL reader's image-available listener, with the image it acquired. */
    method OnZslFrame(acquired: Option<YuvFrame>)
      requires Valid()
      modifies this
      ensures Snapshot() == CS.OnZslFrame(old(Snapshot()), acquired)
      ensures Valid()
    {
      if zsl.enabled {
        zsl := zsl.(closed := CS.Release(zsl.closed, zsl.latest), latest := acquired);
      } else {
        zsl := zsl.(closed := CS.Release(zsl.closed, acquired));
      }
    }

    // -------------------------------------------------------------------
    // Capture pipeline
    // -------------------------------------------------------------------

    method TakePhoto(precaptureThrows: bool, stillThrows: bool) returns (k: CS.Strategy)
      requires Valid()
      modifies this
      ensures (Snapshot(), k) == CS.TakePhoto(old(Snapshot()), precaptureThrows, stillThrows)
      ensures Valid()
    {
      CS.TakePhotoPreservesValid(Snapshot(), precaptureThrows, stillThrows);
      if !(hw.device && hw.session) {
        return CS.NotReady;
      }
      captures := captures.(pending := captures.pending + 1);
      if settings.outputFormat == OutputFormatJpeg {
        if settings.fast && zsl.enabled {
          k := TakeZslPhoto();
        } else {
          k := TakeVanillaJpegPhoto(precaptureThrows, stillThrows);
        }
        return;
      }
      if !hw.rawReader {
        captures := captures.(leaked := captures.leaked + 1);
        return CS.MissingRawReader;
      }
      k := RunPrecaptureSequenceOrCapture(true, precaptureThrows, stillThrows);
    }

    /** takeZslPhoto up to the retry: the held frame is taken, or the retry is scheduled. */
    method TakeZslPhoto() returns (k: CS.Strategy)
      modifies this
      ensures (Snapshot(), k) == CS.TakeZslPhoto(old(Snapshot()))
    {
      var image := zsl.latest;
      if image.None? {
        captures := captures.(zslWaiting := captures.zslWaiting + 1);
        return CS.ZslWaiting;
      }
      zsl := zsl.(latest := None);
      captures := captures.(zslConverting := captures.zslConverting + 1);
      return CS.ZslGrabbed(image.value);
    }

    method TakeVanillaJpegPhoto(precaptureThrows: bool, stillThrows: bool) returns (k: CS.Strategy)
      modifies this
      ensures (Snapshot(), k) == CS.TakeVanillaJpegPhoto(old(Snapshot()), precaptureThrows, stillThrows)
    {
      if !hw.jpegReader {
        captures := captures.(leaked := captures.leaked + 1);
        return CS.Abandoned;
      }
      k := RunPrecaptureSequenceOrCapture(false, precaptureThrows, stillThrows);
    }

    /**
     * The flash step: runPrecaptureSequence when flash and auto exposure are
     * on (with the still following from its callback), the still at once
     * otherwise.
     */
    method RunPrecaptureSequenceOrCapture(raw: bool, precaptureThrows: bool, stillThrows: bool) returns (k: CS.Strategy)
      modifies this
      ensures (Snapshot(), k) == CS.WithPrecapture(old(Snapshot()), raw, precaptureThrows, stillThrows)
    {
      if settings.flash && settings.autoExposure {
        if !hw.previewRequest {
          captures := captures.(leaked := captures.leaked + 1);
          return CS.Abandoned;
        }
        if precaptureThrows {
          k := CaptureWithCurrentSettings(raw, stillThrows);
          return;
        }
        captures := captures.(precaptures := captures.precaptures + 1);
        return CS.AwaitingPrecapture(raw);
      }
      k := CaptureWithCurrentSettings(raw, stillThrows);
    }

    /** captureJpegWithCurrentSettings / captureRawWithCurrentSettings. */
    method CaptureWithCurrentSettings(raw: bool, stillThrows: bool) returns (k: CS.Strategy)
      modifies this
      ensures (Snapshot(), k) == CS.StillRequest(old(Snapshot()), raw, stillThrows)
    {
      if stillThrows {
        captures := captures.(pending := captures.pending - 1);
        return CS.RequestFailed(raw);
      }
      captures := captures.(stills := captures.stills + 1);
      return CS.StillRequested(raw);
    }

    /** The precapture request's onCaptureCompleted: the still follows. */
    method OnPrecaptureCompleted(raw: bool, stillThrows: bool) returns (k: CS.Strategy)
      requires Valid() && captures.precaptures > 0
      modifies this
      ensures (Snapshot(), k) == CS.OnPrecaptureCompleted(old(Snapshot()), raw, stillThrows)
      ensures Valid()
    {
      captures := captures.(precaptures := captures.precaptures - 1);
      k := CaptureWithCurrentSettings(raw, stillThrows);
    }

    /** A precapture request that fails: no handler runs, the capture stays counted. */
    method OnPrecaptureFailed()
      requires Valid() && captures.precaptures > 0
      modifies this
      ensures Snapshot() == CS.OnPrecaptureFailed(old(Snapshot()))
      ensures Valid()
    {
      captures := captures.(precaptures := captures.precaptures - 1, leaked := captures.leaked + 1);
    }

    method OnCaptureCompleted()
      requires Valid()
      modifies this
      ensures Snapshot() == CS.OnCaptureCompleted(old(Snapshot()))
      ensures Valid()
    {
      lastCaptureResult := true;
    }

    method OnCaptureFailed()
      requires Valid() && captures.stills > 0
      modifies this
      ensures Snapshot() == CS.OnCaptureFailed(old(Snapshot()))
      ensures Valid()
    {
      captures := captures.(pending := captures.pending - 1, stills := captures.stills - 1);
    }

    /** handleJpegCapture; returns whether the saved JPEG is converted to grayscale. */
    method HandleJpegCapture() returns (grayscale: bool)
      requires Valid() && captures.stills > 0
      modifies this
      ensures (Snapshot(), grayscale) == CS.OnJpegImage(old(Snapshot()))
      ensures Valid()
    {
      grayscale := settings.bw || monoFlavor;
      captures := captures.(pending := captures.pending - 1, stills := captures.stills - 1);
    }

    /** handleRawCapture; returns whether the DNG is written. */
    method HandleRawCapture(arrivals: seq<bool>) returns (saved: bool)
      requires Valid() && captures.stills > 0
      modifies this
      ensures (Snapshot(), saved) == CS.OnRawImage(old(Snapshot()), arrivals)
      ensures Valid()
    {
      saved := PollForResult(lastCaptureResult, arrivals);
      assert saved == (lastCaptureResult || true in arrivals[..Min(CS.RawResultPolls, |arrivals|)]) by {
        var n := Min(CS.RawResultPolls, |arrivals|);
        if saved && !lastCaptureResult {
          var i :| 0 <= i < n && arrivals[i];
          assert arrivals[..n][i] == arrivals[i];
        }
      }
      lastCaptureResult := saved;
      captures := captures.(pending := captures.pending - 1, stills := captures.stills - 1);
    }

    /** The delayed retry of takeZslPhoto. */
    method ZslRetry() returns (image: Option<YuvFrame>)
      requires Valid() && captures.zslWaiting > 0
      modifies this
      ensures (Snapshot(), image) == CS.ZslRetry(old(Snapshot()))
      ensures Valid()
    {
      image := zsl.latest;
      zsl := zsl.(latest := None);
      if image.Some? {
        captures := captures.(zslWaiting := captures.zslWaiting - 1, zslConverting := captures.zslConverting + 1);
      } else {
        captures := captures.(zslWaiting := captures.zslWaiting - 1, pending := captures.pending - 1);
      }
    }

    /**
     * processZslCapture: yuvToJpeg (the NV21 conversion, then a compression
     * whose outcome is `compressOk`), closing the image, and the save with
     * its grayscale step and EXIF orientation.
     */
    method ProcessZslCapture(frame: YuvFrame, compressOk: bool) returns (result: CS.ZslResult)
      requires Valid() && captures.zslConverting > 0 && ValidLayout(frame)
      modifies this
      ensures (Snapshot(), result) == CS.FinishZslCapture(old(Snapshot()), frame, compressOk)
      ensures Valid()
    {
      var ok, nv21 := Yuv420ToNv21(frame);
      var converted := ok && compressOk;
      zsl := zsl.(closed := zsl.closed + [frame]);
      var grayscale := converted && (settings.bw || monoFlavor);
      var exif := ExifOrientation(JpegOrientation(caps.sensorOrientation, settings.rotation));
      captures := captures.(pending := captures.pending - 1, zslConverting := captures.zslConverting - 1);
      result := CS.ZslResult(converted, grayscale, exif);
    }

    predicate HasPendingCaptures()
      reads this
      ensures HasPendingCaptures() <==> CS.HasPendingCaptures(Snapshot())
    {
      captures.pending > 0
    }
  }
}
