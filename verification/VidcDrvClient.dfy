/** The video driver client as the class whose maps and counts its calls and the driver's events update.
    Each method is one atomic section of `VidcBufferSpec`; EmptyBuffer and FillBuffer are also given whole, as
    they run when no other thread or event comes between. */
module VidcDrvClientModule {
  import opened QCDefs
  import opened VidcBufferSpec

  class VidcDrvClient {
    var inputDynamicMode: bool
    var outputDynamicMode: bool
    var inputBufNum: nat
    var outputBufNum: nat
    var inputMap: map<Handle, Info>
    var outputMap: map<Handle, Info>

    ghost function InPort(): Port
      reads this
    {
      Port(Input, inputDynamicMode, inputBufNum, inputMap)
    }

    ghost function OutPort(): Port
      reads this
    {
      Port(Output, outputDynamicMode, outputBufNum, outputMap)
    }

    ghost function PortOf(side: Side): Port
      reads this
    {
      if side == Input then InPort() else OutPort()
    }

    static function Other(side: Side): Side { if side == Input then Output else Input }

    constructor (numInputBufferReq: nat, numOutputBufferReq: nat)
      ensures InPort() == Port(Input, true, numInputBufferReq, map[])
      ensures OutPort() == Port(Output, true, numOutputBufferReq, map[])
    {
      inputDynamicMode, outputDynamicMode := true, true;
      inputBufNum, outputBufNum := numInputBufferReq, numOutputBufferReq;
      inputMap, outputMap := map[], map[];
    }

    method MarkInput(frameDesc: Frame) returns (ret: Status)
      modifies `inputMap
      ensures InPort() == Mark(old(InPort()), frameDesc).port && ret == Mark(old(InPort()), frameDesc).status
    {
      ret := Ok;
      var handle := frameDesc.handle;
      var timestampUs := frameDesc.timestampNs / 1000;
      if inputDynamicMode {
        if handle in inputMap {
          if !inputMap[handle].used {
            var desc := inputMap[handle].desc.(timestampNs := 1000 * timestampUs, appMarkData := frameDesc.appMarkData);
            inputMap := inputMap[handle := Info(desc, true)];
          } else {
            ret := NoMem;
          }
        } else if |inputMap| < inputBufNum {
          inputMap := inputMap[handle := Info(NO_FRAME, false)];
          inputMap := inputMap[handle := Info(frameDesc.(timestampNs := 1000 * timestampUs), true)];
        } else {
          ret := NoMem;
        }
      } else if handle in inputMap && !inputMap[handle].used {
        var desc := inputMap[handle].desc.(timestampNs := 1000 * timestampUs, appMarkData := frameDesc.appMarkData);
        inputMap := inputMap[handle := Info(desc, true)];
      } else {
        ret := NoMem;
      }
    }

    method MarkOutput(frameDesc: Frame) returns (ret: Status)
      modifies `outputMap
      ensures OutPort() == Mark(old(OutPort()), frameDesc).port && ret == Mark(old(OutPort()), frameDesc).status
    {
      ret := Ok;
      var handle := frameDesc.handle;
      if outputDynamicMode {
        if handle in outputMap {
          if !outputMap[handle].used {
            var desc := outputMap[handle].desc.(
              timestampNs := frameDesc.timestampNs, appMarkData := frameDesc.appMarkData);
            outputMap := outputMap[handle := Info(desc, true)];
          } else {
            ret := NoMem;
          }
        } else if |outputMap| < outputBufNum {
          outputMap := outputMap[handle := Info(frameDesc, true)];
        } else {
          ret := NoMem;
        }
      } else if handle in outputMap && !outputMap[handle].used {
        outputMap := outputMap[handle := outputMap[handle].(used := true)];
      } else {
        ret := NoMem;
      }
    }

    method EmptyBuffer(frameDesc: Frame, ioctlOk: bool) returns (ret: Status)
      modifies `inputMap
      ensures var m := Mark(old(InPort()), frameDesc);
        && InPort() == (if m.status == Ok && !ioctlOk then Clear(m.port, frameDesc.handle) else m.port)
        && ret == (if m.status == Ok && !ioctlOk then Fail else m.status)
    {
      ret := MarkInput(frameDesc);
      if ret == Ok && !ioctlOk {
        var desc := if frameDesc.handle in inputMap then inputMap[frameDesc.handle].desc else NO_FRAME;
        inputMap := inputMap[frameDesc.handle := Info(desc, false)];
        ret := Fail;
      }
    }

    method FillBuffer(frameDesc: Frame, ioctlOk: bool) returns (ret: Status)
      modifies `outputMap
      ensures var m := Mark(old(OutPort()), frameDesc);
        && OutPort() == (if m.status == Ok && !ioctlOk then Clear(m.port, frameDesc.handle) else m.port)
        && ret == (if m.status == Ok && !ioctlOk then Fail else m.status)
    {
      ret := MarkOutput(frameDesc);
      if ret == Ok && !ioctlOk {
        var desc := if frameDesc.handle in outputMap then outputMap[frameDesc.handle].desc else NO_FRAME;
        outputMap := outputMap[frameDesc.handle := Info(desc, false)];
        ret := Fail;
      }
    }

    /** The input-done case of DeviceCbHandler: what is passed to the callback, or None for the error event. */
    method InputDone(handle: Handle) returns (inputInfo: Option<Frame>)
      modifies `inputMap
      ensures var d := Done(old(InPort()), handle); InPort() == d.port && inputInfo == d.copy
    {
      inputInfo := None;
      if handle in inputMap {
        inputMap := inputMap[handle := inputMap[handle].(used := false)];
        inputInfo := Some(inputMap[handle].desc);
      }
    }

    /** The output-done case: the callback is made only if the driver names the buffer's own address. It then gets
        the entry with the driver's size, mark data, time stamp, flags and frame type; otherwise an error event is
        sent. */
    method OutputDone(handle: Handle, frameAddr: nat, driver: Frame) returns (callback: Option<Frame>)
      modifies `outputMap
      ensures var d := Done(old(OutPort()), handle);
        && OutPort() == d.port
        && (callback.Some? <==> d.copy.Some? && d.copy.value.pBuf == frameAddr)
        && (callback.Some? ==>
          callback.value == d.copy.value.(
            validSize := driver.validSize, appMarkData := driver.appMarkData,
            timestampNs := Wrap64(driver.timestampNs * 1000),
            frameFlag := driver.frameFlag, frameType := driver.frameType))
    {
      callback := None;
      if handle in outputMap {
        outputMap := outputMap[handle := outputMap[handle].(used := false)];
        var outputInfo := outputMap[handle].desc;
        if outputInfo.pBuf == frameAddr {
          outputInfo := outputInfo.(validSize := driver.validSize);
          outputInfo := outputInfo.(appMarkData := driver.appMarkData);
          outputInfo := outputInfo.(timestampNs := Wrap64(driver.timestampNs * 1000));
          outputInfo := outputInfo.(frameFlag := driver.frameFlag);
          outputInfo := outputInfo.(frameType := driver.frameType);
          callback := Some(outputInfo);
        }
      }
    }

    /** The buffers of one direction are registered up to the first one whose ioctl fails. */
    method SetBuffer(bufferType: Side, buffers: seq<Frame>, ioctlOk: seq<bool>) returns (ret: Status, ghost done: nat)
      requires |ioctlOk| == |buffers|
      modifies `inputMap, `outputMap
      ensures done <= |buffers|
      ensures PortOf(bufferType) == VidcBufferSpec.SetBuffer(old(PortOf(bufferType)), buffers[..done])
      ensures PortOf(Other(bufferType)) == old(PortOf(Other(bufferType)))
      ensures ret == if done == |buffers| then Ok else Fail
      ensures forall i :: 0 <= i < done ==> ioctlOk[i]
      ensures done < |buffers| ==> !ioctlOk[done]
    {
      ret := Ok;
      var i := 0;
      while i < |buffers|
        invariant 0 <= i <= |buffers| && ret == Ok
        invariant forall j :: 0 <= j < i ==> ioctlOk[j]
        invariant PortOf(bufferType) == VidcBufferSpec.SetBuffer(old(PortOf(bufferType)), buffers[..i])
        invariant PortOf(Other(bufferType)) == old(PortOf(Other(bufferType)))
      {
        if !ioctlOk[i] {
          ret := Fail;
          break;
        }
        assert buffers[..i + 1][..i] == buffers[..i];
        if bufferType == Input {
          inputMap := inputMap[buffers[i].handle := Info(buffers[i], false)];
        } else {
          outputMap := outputMap[buffers[i].handle := Info(buffers[i], false)];
        }
        i := i + 1;
      }
      done := i;
      assert buffers[..|buffers|] == buffers;
    }

    /** `first` and `second` are the counts the driver reports before and after it was told to use the requested one;
        `size` is the buffer size of the first report. */
    method NegotiateBufferReq(bufType: Side, requested: nat, requestedSize: nat, first: Option<nat>, size: nat,
                              setOk: bool, second: Option<nat>)
      returns (ret: Status, bufNum: nat, bufSize: nat)
      modifies `inputBufNum, `outputBufNum
      ensures var n := Negotiate(old(PortOf(bufType)).bufNum, requested, first, setOk, second);
        && ret == n.status && PortOf(bufType) == old(PortOf(bufType)).(bufNum := n.bufNum)
        && bufNum == (if first.Some? then n.bufNum else requested)
        && bufSize == (if first.Some? then size else requestedSize)
      ensures PortOf(Other(bufType)) == old(PortOf(Other(bufType)))
    {
      bufNum, bufSize := requested, requestedSize;
      if first.None? {
        ret := Fail;
      } else {
        ret := Ok;
        bufSize := size;
        var actual := first.value;
        if actual > bufNum {
          bufNum := actual;
        } else if actual < bufNum {
          if !setOk || second.None? || bufNum != second.value {
            ret := Fail;
          }
        }
        if bufType == Input {
          inputBufNum := bufNum;
        } else {
          outputBufNum := bufNum;
        }
      }
    }
  }
}
