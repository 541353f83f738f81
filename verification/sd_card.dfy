/**
  Lifecycle of the SdCard driver: `start` (presence check, bus bring-up,
  wide bus, card status, SDIO interrupt, the two DMA streams and their
  interrupts), `stop`, `mountFatFs` and `openAppend`.

  Each operation is a function from the outcomes of the HAL or FatFs calls
  it makes to whether it succeeded and the trace of effects it performed,
  in order. Field values written into the SDIO and DMA configuration
  records are hardware constants and are not part of the trace.
 */
module SdCard {
  import opened Hal
  import opened FatFs

  /** (preemption priority, sub-priority) of an interrupt line. */
  datatype InterruptPriority = InterruptPriority(first: int, second: int)

  datatype Irq = SdioIrq | DmaRxIrq | DmaTxIrq
  datatype DmaStream = RxStream | TxStream
  datatype SdPort = PortSd1 | PortSd2

  /** An effect on the hardware or a call into FatFs. */
  datatype Effect =
    | PortToSdio(port: SdPort)       // setMode(GPIO_MODE_AF_PP) and setAlternate(GPIO_AF12_SDIO)
    | SdioClockEnable
    | SdInit(clockDiv: uint32)       // HAL_SD_Init
    | WideBusConfig                  // HAL_SD_WideBusOperation_Config(4-bit)
    | GetCardStatus                  // HAL_SD_GetCardStatus
    | SetPriority(irq: Irq, preemption: int, sub: int)
    | EnableIrq(irq: Irq)
    | DmaClockEnable
    | DmaInit(stream: DmaStream)     // __HAL_LINKDMA and HAL_DMA_Init
    | SetPriorityGrouping            // NVIC_PRIORITYGROUP_4
    | DisableIrq(irq: Irq)
    | DmaDeInit(stream: DmaStream)
    | SdDeInit
    | SdioClockDisable
    | LinkDriver                     // FATFS_LinkDriver
    | MountVolume                    // f_mount
    | GetLabel                       // f_getlabel
    | GetCwd                         // f_getcwd
    | OpenFile                       // f_open(FA_WRITE | FA_OPEN_ALWAYS)
    | SeekToEnd                      // f_lseek(fp, f_size(fp))
    | CloseFile                      // f_close

  /** Whether an operation succeeded, and what it did. */
  datatype Run = Run(ok: bool, trace: seq<Effect>)

  /** `run` went through `full` in order and stopped right after the first
      call that `failed`, or completed `full` when no call failed. */
  ghost predicate RanToFirstFailure(run: Run, full: seq<Effect>, failed: Effect -> bool)
  {
    && run.trace <= full
    && (run.ok ==> run.trace == full && forall i :: 0 <= i < |full| ==> !failed(full[i]))
    && (!run.ok ==>
          && 0 < |run.trace|
          && failed(run.trace[|run.trace| - 1])
          && forall i :: 0 <= i < |run.trace| - 1 ==> !failed(run.trace[i]))
  }

  /** A teardown effect: something `stop` does to undo `start`. */
  predicate IsTeardown(e: Effect)
  {
    e.DisableIrq? || e.DmaDeInit? || e.SdDeInit? || e.SdioClockDisable?
  }

  // ---------------------------------------------------------------- start

  /** What the presence pin and the checked HAL calls of `start` report. */
  datatype StartOutcomes = StartOutcomes(
    inserted: bool,
    sdInit: SdError,
    wideBus: SdError,
    cardStatus: SdError,
    dmaRx: HalStatus,
    dmaTx: HalStatus)

  /** The checked calls of `start` and whether each one failed. */
  predicate StartCallFailed(o: StartOutcomes, e: Effect)
  {
    match e
    case SdInit(_) => o.sdInit != SdOk
    case WideBusConfig => o.wideBus != SdOk
    case GetCardStatus => o.cardStatus != SdOk
    case DmaInit(RxStream) => o.dmaRx != HalOk
    case DmaInit(TxStream) => o.dmaTx != HalOk
    case _ => false
  }

  /** The effects of `start` between one checked call and the next: each
      segment but the last ends with the call whose outcome is checked. */
  function BusBringUp(clockDiv: uint32): seq<Effect>
  {
    [PortToSdio(PortSd1), PortToSdio(PortSd2), SdioClockEnable, SdInit(clockDiv)]
  }

  function SdioIrqAndRxDma(prio: InterruptPriority): seq<Effect>
  {
    [SetPriority(SdioIrq, prio.first, prio.second), EnableIrq(SdioIrq), DmaClockEnable, DmaInit(RxStream)]
  }

  function DmaIrqs(prio: InterruptPriority): seq<Effect>
  {
    [ SetPriorityGrouping, SetPriority(DmaRxIrq, prio.first + 1, prio.second), EnableIrq(DmaRxIrq),
      SetPriorityGrouping, SetPriority(DmaTxIrq, prio.first + 1, prio.second), EnableIrq(DmaTxIrq) ]
  }

  /** Everything a successful `start` does, in order. */
  function FullStartTrace(clockDiv: uint32, prio: InterruptPriority): seq<Effect>
  {
    BusBringUp(clockDiv) + [WideBusConfig] + [GetCardStatus] + SdioIrqAndRxDma(prio) + [DmaInit(TxStream)] + DmaIrqs(prio)
  }

  /** `SdCard::start(clockDiv)` with the object's `irqPrio`. */
  function Start(clockDiv: uint32, prio: InterruptPriority, o: StartOutcomes): (r: Run)
    ensures !o.inserted ==> r == Run(false, [])
    ensures o.inserted ==> RanToFirstFailure(r, FullStartTrace(clockDiv, prio), e => StartCallFailed(o, e))
  {
    if !o.inserted then Run(false, [])
    else
      var t1 := BusBringUp(clockDiv);
      if o.sdInit != SdOk then Run(false, t1)
      else
        var t2 := t1 + [WideBusConfig];
        if o.wideBus != SdOk then Run(false, t2)
        else
          var t3 := t2 + [GetCardStatus];
          if o.cardStatus != SdOk then Run(false, t3)
          else
            var t4 := t3 + SdioIrqAndRxDma(prio);
            if o.dmaRx != HalOk then Run(false, t4)
            else
              var t5 := t4 + [DmaInit(TxStream)];
              if o.dmaTx != HalOk then Run(false, t5)
              else
                Run(true, t5 + DmaIrqs(prio))
  }

  /** `start` succeeds exactly when the card is present and every checked
      call succeeds. */
  lemma StartOkIff(clockDiv: uint32, prio: InterruptPriority, o: StartOutcomes)
    ensures Start(clockDiv, prio, o).ok <==>
      o.inserted && o.sdInit == SdOk && o.wideBus == SdOk && o.cardStatus == SdOk
      && o.dmaRx == HalOk && o.dmaTx == HalOk
  {
  }

  /** A failed `start` undoes nothing: its trace holds no teardown effect,
      so for instance an SDIO interrupt it enabled stays enabled. */
  lemma StartNeverRollsBack(clockDiv: uint32, prio: InterruptPriority, o: StartOutcomes)
    ensures forall e :: e in Start(clockDiv, prio, o).trace ==> !IsTeardown(e)
    ensures o.inserted && o.sdInit == SdOk && o.wideBus == SdOk && o.cardStatus == SdOk ==>
      EnableIrq(SdioIrq) in Start(clockDiv, prio, o).trace
  {
  }

  /** After a successful `start` the SDIO interrupt runs at `irqPrio.first`
      and both DMA interrupts one preemption level below it. */
  lemma StartPriorities(clockDiv: uint32, prio: InterruptPriority, o: StartOutcomes)
    requires Start(clockDiv, prio, o).ok
    ensures SetPriority(SdioIrq, prio.first, prio.second) in Start(clockDiv, prio, o).trace
    ensures SetPriority(DmaRxIrq, prio.first + 1, prio.second) in Start(clockDiv, prio, o).trace
    ensures SetPriority(DmaTxIrq, prio.first + 1, prio.second) in Start(clockDiv, prio, o).trace
    ensures forall irq :: irq in {SdioIrq, DmaRxIrq, DmaTxIrq} ==> EnableIrq(irq) in Start(clockDiv, prio, o).trace
  {
  }

  // ----------------------------------------------------------------- stop

  /** `SdCard::stop`: it disables every interrupt line, de-initialises both
      DMA streams and the card, and switches the SDIO clock off last. That
      it does nothing else, and in which order, is `StopOnlyTearsDown` and
      `StopReversesStart`. */
  function Stop(): (s: seq<Effect>)
    ensures DisableIrq(SdioIrq) in s && DisableIrq(DmaRxIrq) in s && DisableIrq(DmaTxIrq) in s
    ensures DmaDeInit(RxStream) in s && DmaDeInit(TxStream) in s && SdDeInit in s
    ensures 0 < |s| && s[|s| - 1] == SdioClockDisable
  {
    [ DisableIrq(DmaTxIrq), DisableIrq(DmaRxIrq),
      DmaDeInit(TxStream), DmaDeInit(RxStream),
      DisableIrq(SdioIrq),
      SdDeInit,
      SdioClockDisable ]
  }

  /** `stop` performs teardown effects only. */
  lemma StopOnlyTearsDown()
    ensures forall e :: e in Stop() ==> IsTeardown(e)
  {
  }

  /** The teardown effect that undoes one effect of `start`, if any. */
  function Undo(e: Effect): seq<Effect>
  {
    match e
    case SdioClockEnable => [SdioClockDisable]
    case SdInit(_) => [SdDeInit]
    case EnableIrq(irq) => [DisableIrq(irq)]
    case DmaInit(s) => [DmaDeInit(s)]
    case _ => []
  }

  /** Undoes a trace: the undo of each effect, last effect first. */
  function Teardown(t: seq<Effect>): seq<Effect>
  {
    if |t| == 0 then [] else Teardown(t[1..]) + Undo(t[0])
  }

  /** Undoing a concatenation undoes the later part first. */
  lemma {:induction false} TeardownAppend(a: seq<Effect>, b: seq<Effect>)
    ensures Teardown(a + b) == Teardown(b) + Teardown(a)
    decreases |a|
  {
    if |a| == 0 {
      assert a + b == b;
    } else {
      assert (a + b)[1..] == a[1..] + b;
      TeardownAppend(a[1..], b);
    }
  }

  /** Teardown only looks at what each effect undoes. */
  lemma {:induction false} TeardownOfSameUndo(t1: seq<Effect>, t2: seq<Effect>)
    requires |t1| == |t2|
    requires forall i :: 0 <= i < |t1| ==> Undo(t1[i]) == Undo(t2[i])
    ensures Teardown(t1) == Teardown(t2)
    decreases |t1|
  {
    if |t1| > 0 {
      TeardownOfSameUndo(t1[1..], t2[1..]);
    }
  }

  // Each segment undoes like its instance for configuration 0, whose
  // teardown Dafny evaluates.

  lemma TeardownOfBusBringUp(clockDiv: uint32)
    ensures Teardown(BusBringUp(clockDiv)) == [SdDeInit, SdioClockDisable]
  {
    TeardownOfSameUndo(BusBringUp(clockDiv), BusBringUp(0));
  }

  lemma TeardownOfSdioIrqAndRxDma(prio: InterruptPriority)
    ensures Teardown(SdioIrqAndRxDma(prio)) == [DmaDeInit(RxStream), DisableIrq(SdioIrq)]
  {
    TeardownOfSameUndo(SdioIrqAndRxDma(prio), SdioIrqAndRxDma(InterruptPriority(0, 0)));
  }

  lemma TeardownOfDmaIrqs(prio: InterruptPriority)
    ensures Teardown(DmaIrqs(prio)) == [DisableIrq(DmaTxIrq), DisableIrq(DmaRxIrq)]
  {
    TeardownOfSameUndo(DmaIrqs(prio), DmaIrqs(InterruptPriority(0, 0)));
  }

  /** Tearing down a full `start` undoes, in reverse order, the DMA
      interrupts, the TX stream, the RX stream and SDIO interrupt, and the
      bus bring-up. */
  lemma TeardownOfFullStart(clockDiv: uint32, prio: InterruptPriority)
    ensures Teardown(FullStartTrace(clockDiv, prio))
         == [ DisableIrq(DmaTxIrq), DisableIrq(DmaRxIrq),
              DmaDeInit(TxStream), DmaDeInit(RxStream),
              DisableIrq(SdioIrq),
              SdDeInit,
              SdioClockDisable ]
  {
    var a, b, c := BusBringUp(clockDiv), SdioIrqAndRxDma(prio), DmaIrqs(prio);
    var w, s, tx := [WideBusConfig], [GetCardStatus], [DmaInit(TxStream)];
    assert FullStartTrace(clockDiv, prio) == a + (w + (s + (b + (tx + c))));
    TeardownOfDmaIrqs(prio);
    TeardownAppend(tx, c);
    var t1 := [DisableIrq(DmaTxIrq), DisableIrq(DmaRxIrq), DmaDeInit(TxStream)];
    assert Teardown(tx + c) == t1;
    TeardownOfSdioIrqAndRxDma(prio);
    TeardownAppend(b, tx + c);
    var t2 := t1 + [DmaDeInit(RxStream), DisableIrq(SdioIrq)];
    assert Teardown(b + (tx + c)) == t2;
    TeardownAppend(s, b + (tx + c));
    TeardownAppend(w, s + (b + (tx + c)));
    assert Teardown(w + (s + (b + (tx + c)))) == t2;
    TeardownOfBusBringUp(clockDiv);
    TeardownAppend(a, w + (s + (b + (tx + c))));
  }

  /** `stop` undoes everything a successful `start` did that can be undone,
      in exactly the reverse order (the DMA clock and the port modes are
      the only effects it leaves in place). */
  lemma StopReversesStart(clockDiv: uint32, prio: InterruptPriority)
    ensures Stop() == Teardown(FullStartTrace(clockDiv, prio))
  {
    TeardownOfFullStart(clockDiv, prio);
  }

  // ----------------------------------------------------------- mountFatFs

  /** What the calls of `mountFatFs` report. */
  datatype MountOutcomes = MountOutcomes(link: uint8, mount: FResult, volumeLabel: FResult, cwd: FResult)

  predicate MountCallFailed(o: MountOutcomes, e: Effect)
  {
    match e
    case LinkDriver => o.link != 0
    case MountVolume => o.mount != FrOk
    case GetLabel => o.volumeLabel != FrOk
    case GetCwd => o.cwd != FrOk
    case _ => false
  }

  const FullMountTrace: seq<Effect> := [LinkDriver, MountVolume, GetLabel, GetCwd]

  /** `SdCard::mountFatFs`. */
  function MountFatFs(o: MountOutcomes): (r: Run)
    ensures RanToFirstFailure(r, FullMountTrace, e => MountCallFailed(o, e))
    ensures r.ok <==> o.link == 0 && o.mount == FrOk && o.volumeLabel == FrOk && o.cwd == FrOk
  {
    if o.link != 0 then Run(false, [LinkDriver])
    else if o.mount != FrOk then Run(false, [LinkDriver, MountVolume])
    else if o.volumeLabel != FrOk then Run(false, [LinkDriver, MountVolume, GetLabel])
    else if o.cwd != FrOk then Run(false, FullMountTrace)
    else Run(true, FullMountTrace)
  }

  // ----------------------------------------------------------- openAppend

  /** What `f_open` and `f_lseek` report. */
  datatype FileOutcomes = FileOutcomes(open: FResult, seek: FResult)

  datatype OpenAppendResult = OpenAppendResult(result: FResult, trace: seq<Effect>)

  /** The file part of `openAppend`: open (or create) the file, seek to its
      end, and close it again when the seek fails. */
  function OpenAtEnd(fo: FileOutcomes): (r: OpenAppendResult)
    ensures 0 < |r.trace| && r.trace[0] == OpenFile
    ensures r.trace <= [OpenFile, SeekToEnd, CloseFile]
    ensures SeekToEnd in r.trace <==> fo.open == FrOk
    ensures CloseFile in r.trace <==> fo.open == FrOk && fo.seek != FrOk
    ensures fo.open != FrOk ==> r.result == fo.open
    ensures SeekToEnd in r.trace ==> r.result == fo.seek
    ensures r.result == FrOk <==> fo.open == FrOk && fo.seek == FrOk
  {
    if fo.open != FrOk then OpenAppendResult(fo.open, [OpenFile])
    else if fo.seek != FrOk then OpenAppendResult(fo.seek, [OpenFile, SeekToEnd, CloseFile])
    else OpenAppendResult(FrOk, [OpenFile, SeekToEnd])
  }

  /** `SdCard::openAppend(clockDiv, fp, path)`. */
  function OpenAppend(clockDiv: uint32, prio: InterruptPriority, so: StartOutcomes, mo: MountOutcomes, fo: FileOutcomes): (r: OpenAppendResult)
    ensures var s := Start(clockDiv, prio, so);
      !s.ok ==> r == OpenAppendResult(FrNotReady, s.trace)
    ensures var s := Start(clockDiv, prio, so); var m := MountFatFs(mo);
      s.ok && !m.ok ==> r == OpenAppendResult(FrNoFilesystem, s.trace + m.trace)
    ensures var s := Start(clockDiv, prio, so); var m := MountFatFs(mo); var f := OpenAtEnd(fo);
      s.ok && m.ok ==> r == OpenAppendResult(f.result, s.trace + m.trace + f.trace)
    ensures r.result == FrOk <==> Start(clockDiv, prio, so).ok && MountFatFs(mo).ok && fo.open == FrOk && fo.seek == FrOk
  {
    var s := Start(clockDiv, prio, so);
    if !s.ok then OpenAppendResult(FrNotReady, s.trace)
    else
      var m := MountFatFs(mo);
      if !m.ok then OpenAppendResult(FrNoFilesystem, s.trace + m.trace)
      else
        var f := OpenAtEnd(fo);
        OpenAppendResult(f.result, s.trace + m.trace + f.trace)
  }
}
