/**
 * CameraViewModel (CameraViewModel.kt) as a class. Its fields are the view
 * model's state flows and plain fields, grouped as the records of
 * ViewModelSpec: the format state (output format, fast mode, B/W, colour
 * mode, flash, preview, and the saved preview flag and format), the
 * exposure state (mode, open slider, EV, ISO, shutter speed), the
 * capturing and saving flags, the format list, the current rotation, and
 * the controller link. Each method is proved to take the view model from
 * `Snapshot()` to the state the corresponding function of ViewModelSpec
 * gives. All of them update the fields as the source does except two,
 * which follow the corrected definitions instead:
 *   - ToggleFastMode: leaving fast mode back into RAW turns B/W off, where
 *     the code leaves it as the colour mode set it.
 *   - OnCaptureComplete: every onComplete ends capturing and saving, where
 *     the code ends saving only for a RAW capture on the usual path that
 *     brings a URI.
 * ViewModelSpec keeps the code as written beside them, with the lemmas
 * that show what goes wrong there.
 */
module ViewModel {
  import opened Numerics
  import opened CaptureMath
  import opened ViewModelSpec

  class CameraViewModel {
    var formatState: FormatState
    var exposureState: ExposureState
    var isCapturing: bool
    var isSaving: bool
    var availableFormats: seq<int>
    var currentRotation: int
    /** The camera controller, seen through the calls it receives. */
    var controller: Link

    ghost function Snapshot(): UiState
      reads this
    {
      UiState(formatState, exposureState, isCapturing, isSaving, availableFormats, currentRotation, controller)
    }

    constructor()
      ensures Snapshot() == Initial()
    {
      formatState := InitialFormatState;
      exposureState := InitialExposureState;
      isCapturing := false;
      isSaving := false;
      availableFormats := [];
      currentRotation := Rotation0;
      controller := Link(false, []);
    }

    /** `cameraController?.f(...)`. */
    method Call(c: ControllerCall)
      modifies this
      ensures Snapshot() == old(Snapshot()).(controller := Send(old(controller), [c]))
    {
      if controller.present {
        controller := controller.(calls := controller.calls + [c]);
      }
    }

    /** Several controller calls in a row, each a no-op when no controller is bound. */
    method CallAll(cs: seq<ControllerCall>)
      modifies this
      ensures Snapshot() == old(Snapshot()).(controller := Send(old(controller), cs))
    {
      if controller.present {
        controller := controller.(calls := controller.calls + cs);
      }
    }

    // -------------------------------------------------------------------
    // Slider panels and exposure
    // -------------------------------------------------------------------

    method ToggleExposurePanel()
      modifies this
      ensures Snapshot() == TogglePanel(old(Snapshot()), ExposureSlider)
    {
      var slider := if exposureState.slider == ExposureSlider then NoSlider else ExposureSlider;
      exposureState := exposureState.(slider := slider);
    }

    method ToggleIsoPanel()
      modifies this
      ensures Snapshot() == TogglePanel(old(Snapshot()), IsoSlider)
    {
      var slider := if exposureState.slider == IsoSlider then NoSlider else IsoSlider;
      exposureState := exposureState.(slider := slider);
    }

    method ToggleShutterPanel()
      modifies this
      ensures Snapshot() == TogglePanel(old(Snapshot()), ShutterSlider)
    {
      var slider := if exposureState.slider == ShutterSlider then NoSlider else ShutterSlider;
      exposureState := exposureState.(slider := slider);
    }

    method CloseAllPanels()
      modifies this
      ensures Snapshot() == ViewModelSpec.CloseAllPanels(old(Snapshot()))
    {
      exposureState := exposureState.(slider := NoSlider);
    }

    method ToggleExposureMode()
      modifies this
      ensures Snapshot() == ViewModelSpec.ToggleExposureMode(old(Snapshot()))
    {
      var newMode := if exposureState.mode == Auto then Manual else Auto;
      SetExposureMode(newMode);
    }

    method SetExposureMode(mode: ExposureMode)
      modifies this
      ensures Snapshot() == ViewModelSpec.SetExposureMode(old(Snapshot()), mode)
    {
      exposureState := exposureState.(mode := mode, slider := NoSlider);
      if mode == Auto {
        Call(SetAutoExposure(true, exposureState.ev));
      } else {
        Call(SetManualExposure(exposureState.iso, exposureState.shutterNs));
      }
    }

    method SetExposureValue(ev: real)
      modifies this
      ensures Snapshot() == ViewModelSpec.SetExposureValue(old(Snapshot()), ev)
    {
      exposureState := exposureState.(ev := CoerceInReal(ev, -2.0, 2.0));
      Call(SetExposureCompensation(ev));
    }

    method SetIsoValue(iso: int)
      modifies this
      ensures Snapshot() == ViewModelSpec.SetIsoValue(old(Snapshot()), iso)
    {
      exposureState := exposureState.(iso := CoerceIn(iso, 100, 3200));
      Call(SetManualExposure(iso, exposureState.shutterNs));
    }

    method SetShutterSpeed(ns: int)
      modifies this
      ensures Snapshot() == ViewModelSpec.SetShutterSpeed(old(Snapshot()), ns)
    {
      exposureState := exposureState.(shutterNs := ns);
      Call(SetManualExposure(exposureState.iso, ns));
    }

    method ResetExposureToDefault()
      modifies this
      ensures Snapshot() == ViewModelSpec.SetExposureValue(old(Snapshot()), 0.0)
    {
      SetExposureValue(0.0);
    }

    method ResetIsoToDefault()
      modifies this
      ensures Snapshot() == ViewModelSpec.SetIsoValue(old(Snapshot()), DefaultIso)
    {
      SetIsoValue(DefaultIso);
    }

    method ResetShutterSpeedToDefault()
      modifies this
      ensures Snapshot() == ViewModelSpec.SetShutterSpeed(old(Snapshot()), DefaultShutterNs)
    {
      SetShutterSpeed(DefaultShutterNs);
    }

    // -------------------------------------------------------------------
    // Flash, preview, colour mode and formats
    // -------------------------------------------------------------------

    method ToggleFlash()
      modifies this
      ensures Snapshot() == ViewModelSpec.ToggleFlash(old(Snapshot()))
    {
      if formatState.fast {
        return;
      }
      formatState := formatState.(flash := !formatState.flash);
      Call(SetFlashEnabled(formatState.flash));
    }

    method TogglePreview()
      modifies this
      ensures Snapshot() == ViewModelSpec.TogglePreview(old(Snapshot()))
    {
      formatState := formatState.(preview := !formatState.preview);
    }

    method ToggleColorMode()
      modifies this
      ensures Snapshot() == ViewModelSpec.ToggleColorMode(old(Snapshot()))
    {
      if isCapturing || isSaving {
        return;
      }
      if formatState.outputFormat == OutputFormatRaw {
        return;
      }
      formatState := formatState.(colorMode := !formatState.colorMode);
      formatState := formatState.(bw := formatState.colorMode);
      Call(SetBwMode(formatState.bw));
    }

    /** The fast-mode exit shared by the RAW and JPEG branches of toggleOutputFormat. */
    method LeaveFastMode()
      modifies this
      ensures Snapshot() == ViewModelSpec.LeaveFastMode(old(Snapshot()))
    {
      if formatState.fast {
        formatState := formatState.(fast := false, preview := formatState.priorPreview);
        Call(SetFastMode(false));
      }
    }

    method ToggleOutputFormat()
      modifies this
      ensures Snapshot() == ViewModelSpec.ToggleOutputFormat(old(Snapshot()))
    {
      if isCapturing || isSaving {
        return;
      }
      var formats := availableFormats;
      if formats == [] {
        return;
      }
      var currentOption := if formatState.fast then HfFormatCode else formatState.outputFormat;
      var found := IndexOf(formats, currentOption);
      var currentIndex := if found >= 0 then found else 0;
      var nextIndex := (currentIndex + 1) % |formats|;
      var newOption := formats[nextIndex];

      assert newOption == NextOption(formats, CurrentOption(old(Snapshot())));
      if newOption == HfFormatCode {
        var f := formatState;
        formatState := f.(priorPreview := f.preview, priorFormat := f.outputFormat, fast := true,
                          outputFormat := OutputFormatJpeg, bw := f.colorMode, flash := false);
        CallAll([SetFastMode(true), SetBwMode(f.colorMode), SetFlashEnabled(false),
                 ControllerCall.SetOutputFormat(OutputFormatJpeg)]);
      } else if newOption == OutputFormatRaw {
        LeaveFastMode();
        formatState := formatState.(bw := false, outputFormat := OutputFormatRaw);
        CallAll([SetBwMode(false), ControllerCall.SetOutputFormat(OutputFormatRaw)]);
      } else {
        LeaveFastMode();
        formatState := formatState.(bw := formatState.colorMode, outputFormat := newOption);
        CallAll([SetBwMode(formatState.bw), ControllerCall.SetOutputFormat(newOption)]);
      }
    }

    method SetOutputFormat(format: int)
      modifies this
      ensures Snapshot() == SetOutputFormatDirect(old(Snapshot()), format)
    {
      formatState := formatState.(outputFormat := format);
      Call(ControllerCall.SetOutputFormat(format));
    }

    method ToggleFastMode()
      modifies this
      ensures Snapshot() == ViewModelSpec.ToggleFastMode(old(Snapshot()))
    {
      if isCapturing || isSaving {
        return;
      }
      var enable := !formatState.fast;
      if enable {
        var f := formatState;
        formatState := f.(priorPreview := f.preview, priorFormat := f.outputFormat,
                          fast := true, bw := false, outputFormat := OutputFormatJpeg);
        CallAll([SetFastMode(true), SetBwMode(false), ControllerCall.SetOutputFormat(OutputFormatJpeg)]);
      } else if formatState.priorFormat == OutputFormatRaw {
        // Back into RAW, which is always RGB.
        formatState := formatState.(fast := false, preview := formatState.priorPreview,
                                    outputFormat := formatState.priorFormat, bw := false);
        CallAll([SetFastMode(false), SetBwMode(false), ControllerCall.SetOutputFormat(formatState.priorFormat)]);
      } else {
        formatState := formatState.(fast := false, preview := formatState.priorPreview, outputFormat := formatState.priorFormat);
        CallAll([SetFastMode(false), ControllerCall.SetOutputFormat(formatState.priorFormat)]);
      }
    }

    /** isRawMode: whether RAW is the selected output format. */
    function IsRawMode(): bool
      reads this
    {
      formatState.outputFormat == OutputFormatRaw
    }

    // -------------------------------------------------------------------
    // Camera binding, rotation and capture
    // -------------------------------------------------------------------

    method BindCamera()
      modifies this
      ensures Snapshot() == ViewModelSpec.BindCamera(old(Snapshot()))
    {
      if !controller.present {
        controller := Link(true, []);
      }
      var format := if formatState.fast then OutputFormatJpeg else formatState.outputFormat;
      var bw := if format != OutputFormatRaw then formatState.colorMode else false;
      formatState := formatState.(outputFormat := format, bw := bw);
      CallAll([SetInitialOutputFormat(format), SetFlashEnabled(formatState.flash),
               SetBwMode(bw), SetFastMode(formatState.fast)]);
    }

    method OnFormatsAvailable(formats: seq<int>)
      modifies this
      ensures Snapshot() == ViewModelSpec.OnFormatsAvailable(old(Snapshot()), formats)
    {
      availableFormats := OrderFormats(formats);
    }

    method OnCameraReady()
      modifies this
      ensures Snapshot() == ViewModelSpec.OnCameraReady(old(Snapshot()))
    {
      if exposureState.mode == Auto {
        Call(SetAutoExposure(true, exposureState.ev));
      } else {
        Call(SetManualExposure(exposureState.iso, exposureState.shutterNs));
      }
    }

    method OnOrientationChanged(orientation: int)
      modifies this
      ensures Snapshot() == ViewModelSpec.OnOrientationChanged(old(Snapshot()), orientation)
    {
      if orientation == OrientationUnknown {
        return;
      }
      var rotation := RotationFor(orientation);
      if rotation != currentRotation {
        currentRotation := rotation;
        Call(SetRotation(rotation));
      }
    }

    method OnShutterButtonPress(controllerPending: bool)
      modifies this
      ensures Snapshot() == ViewModelSpec.OnShutterButtonPress(old(Snapshot()), controllerPending)
    {
      if !controller.present {
        return;
      }
      if controllerPending {
        return;
      }
      isCapturing := true;
      Call(TakePhoto);
    }

    method OnCaptureStarted()
      modifies this
      ensures Snapshot() == ViewModelSpec.OnCaptureStarted(old(Snapshot()))
    {
      isCapturing := false;
      isSaving := true;
    }

    method OnPreviewReady(fastPath: bool)
      modifies this
      ensures Snapshot() == ViewModelSpec.OnPreviewReady(old(Snapshot()), fastPath)
    {
      if fastPath || formatState.outputFormat != OutputFormatRaw {
        isSaving := false;
      }
    }

    method OnCaptureComplete(fastPath: bool, uriPresent: bool)
      modifies this
      ensures Snapshot() == ViewModelSpec.OnCaptureComplete(old(Snapshot()), fastPath, uriPresent)
    {
      // The last callback of every capture ends it, whatever the path.
      isCapturing := false;
      isSaving := false;
    }

    method OnPause()
      modifies this
      ensures Snapshot() == ViewModelSpec.OnPause(old(Snapshot()))
    {
      Call(Shutdown);
      controller := controller.(present := false);
    }
  }
}
