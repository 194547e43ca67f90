/**
 * The part of the Greaseweazle controller (`greaseweazle.usb.Unit`) that the
 * reader drives. The controller itself is not modelled: a `Unit` records every
 * command it is sent, in order, and a fixed table `faults` says which commands
 * fail and with what exception (command number `n` of the unit's lifetime
 * raises `faults[n]`). A Ctrl-C that arrives while a command is on the wire is
 * a `KeyboardInterrupt` fault.
 */
module Greaseweazle {
  import opened Wrappers

  /** The exceptions the reader can see. */
  datatype Exc =
    | KeyboardInterrupt
    | FileNotFound      // `use_drive` on a drive letter that is not configured
    | KeyError          // a dictionary lookup of a missing key
    | IndexError        // `[-1]` on an empty list
    | ZeroDivisionError
    | DeviceError(code: int)  // anything the controller or its USB link raises

  /** A Python call either returns a value or raises an exception. */
  datatype Outcome<R> = Returned(value: R) | Raised(exc: Exc)

  /** The drive object `util.Drive()(letter)` gives: the bus it sits on and its unit number. */
  datatype DriveDev = DriveDev(bus: int, unit: int)

  /** One command sent to the controller. */
  datatype Call =
    | SetBusType(bus: int)
    | DriveSelect(unit: int)
    | DriveMotor(unit: int, on: bool)
    | Reset
    | DriveDeselect
    | Operation(dev: DriveDev)  // the caller's function, run with the unit and the drive

  /** The exception command number `n` raises, if any. */
  function FaultAt(faults: map<nat, Exc>, n: nat): Option<Exc>
  {
    if n in faults then Some(faults[n]) else None
  }

  /** An open connection to a controller. */
  class Unit {
    /** Every command sent so far, oldest first. */
    var trace: seq<Call>
    /** Which commands fail, by their position in the trace. */
    const faults: map<nat, Exc>

    constructor(faults: map<nat, Exc>)
      ensures trace == [] && this.faults == faults
    {
      trace := [];
      this.faults := faults;
    }

    /** Sends one command; it fails as the fault table says. */
    method Send(c: Call) returns (x: Option<Exc>)
      modifies this
      ensures trace == old(trace) + [c]
      ensures x == FaultAt(faults, |old(trace)|)
    {
      x := FaultAt(faults, |trace|);
      trace := trace + [c];
    }

    /** `set_bus_type(bus)` */
    method SetBusType(bus: int) returns (x: Option<Exc>)
      modifies this
      ensures trace == old(trace) + [Call.SetBusType(bus)]
      ensures x == FaultAt(faults, |old(trace)|)
    {
      x := Send(Call.SetBusType(bus));
    }

    /** `drive_select(unit)` */
    method DriveSelect(unit: int) returns (x: Option<Exc>)
      modifies this
      ensures trace == old(trace) + [Call.DriveSelect(unit)]
      ensures x == FaultAt(faults, |old(trace)|)
    {
      x := Send(Call.DriveSelect(unit));
    }

    /** `drive_motor(unit, on)` */
    method DriveMotor(unit: int, on: bool) returns (x: Option<Exc>)
      modifies this
      ensures trace == old(trace) + [Call.DriveMotor(unit, on)]
      ensures x == FaultAt(faults, |old(trace)|)
    {
      x := Send(Call.DriveMotor(unit, on));
    }

    /** `reset()` */
    method Reset() returns (x: Option<Exc>)
      modifies this
      ensures trace == old(trace) + [Call.Reset]
      ensures x == FaultAt(faults, |old(trace)|)
    {
      x := Send(Call.Reset);
    }

    /** `drive_deselect()` */
    method DriveDeselect() returns (x: Option<Exc>)
      modifies this
      ensures trace == old(trace) + [Call.DriveDeselect]
      ensures x == FaultAt(faults, |old(trace)|)
    {
      x := Send(Call.DriveDeselect);
    }

    /**
     * `function(gw, drv)`: the caller's function, run against this unit. What
     * it does on the wire is summed up as one `Operation` entry; how it ends
     * is `op(dev)`.
     */
    method Perform<R>(op: DriveDev -> Outcome<R>, dev: DriveDev) returns (r: Outcome<R>)
      modifies this
      ensures trace == old(trace) + [Operation(dev)]
      ensures r == op(dev)
    {
      trace := trace + [Operation(dev)];
      r := op(dev);
    }
  }
}
