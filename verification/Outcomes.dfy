/** The answers a drive can give.  The providers behind them are not part of this model: every
    call may return any alternative. */
module Outcomes {
  import opened FluxSlicing

  datatype MotorOutcome = MotorRunning | MotorStopped | MotorStalled | MotorPolicy | MotorDisconnected | MotorError

  datatype SeekOutcome = SeekArrived | SeekOvershot | SeekTrack0Failed | SeekPolicy | SeekDisconnected | SeekError

  datatype FluxOutcome =
    | FluxCaptured(transitions: seq<uint32>, indexTimes: seq<uint32>)
    | FluxMarginal
    | FluxUnreadable
    | FluxPolicy
    | FluxDisconnected
    | FluxError

  datatype WriteOutcome =
    | WriteCompleted | WriteVerifyFailed | WriteRefused | WritePolicy | WriteDisconnected | WriteError

  predicate MotorOk(o: MotorOutcome) { o.MotorRunning? || o.MotorStopped? }

  class Drive {
    constructor () {}

    method SetMotor(on: bool) returns (o: MotorOutcome) { o := *; }

    method Seek(cylinder: int) returns (o: SeekOutcome) { o := *; }

    method ReadRawFlux(cylinder: int, head: int, revolutions: int) returns (o: FluxOutcome) { o := *; }

    method WriteRawFlux(cylinder: int, head: int, verify: bool, flux: seq<uint32>) returns (o: WriteOutcome) { o := *; }
  }
}
