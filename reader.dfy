/**
 * `FloppyReader`: the configured drives, and `use_drive`, which wraps every
 * job on a drive in select / motor on / run / motor off / deselect, with a
 * controller reset when the job is interrupted.
 */
module Floppy {
  import opened Dicts
  import opened FloppyConfig
  import opened Greaseweazle
  import opened DriveSession

  // ---------------------------------------------------------------------------
  // Drive records

  /** The entry `self.drives[letter]`: `{'type': t, 'tracks': .., 'heads': .., 'drive': ..}`. */
  datatype DriveRecord = DriveRecord(kind: string, tracks: nat, heads: nat, drive: DriveDev)

  /** The record for a drive of type `t` whose device is `dev`. */
  function RecordFor(t: string, dev: DriveDev): (r: DriveRecord)
    requires t in DriveParams
    ensures r.kind == t && r.drive == dev
    ensures r.heads == 2
    ensures r.tracks == 40 <==> t == "5.25DD"
    ensures r.tracks == 40 || r.tracks == 80
  {
    DriveRecord(t, DriveParams[t].tracks, DriveParams[t].heads, dev)
  }

  /** The records for the first `n` configured drives, in configuration order. */
  function RecordsUpTo(d: Dict<string, string>, resolve: string -> DriveDev, n: nat): Dict<string, DriveRecord>
    requires DrivesValid(d) && n <= |d.keys|
  {
    Dict(d.keys[..n], map k | k in d.keys[..n] :: RecordFor(d.items[k], resolve(k)))
  }

  /** One more turn of the `__init__` loop assigns the next configured drive's record. */
  lemma {:induction false} RecordsStep(d: Dict<string, string>, resolve: string -> DriveDev, i: nat)
    requires DrivesValid(d) && i < |d.keys|
    ensures d.keys[i] in d.items
    ensures RecordsUpTo(d, resolve, i + 1) == RecordsUpTo(d, resolve, i).Put(d.keys[i], RecordFor(d.items[d.keys[i]], resolve(d.keys[i])))
  {
    var k := d.keys[i];
    assert k in d.items;
    assert k !in d.keys[..i];
    assert d.keys[..i + 1] == d.keys[..i] + [k];
  }

  /** After the whole loop there is one record per configured drive, in configuration order. */
  lemma {:induction false} RecordsComplete(d: Dict<string, string>, resolve: string -> DriveDev)
    requires DrivesValid(d)
    ensures var r := RecordsUpTo(d, resolve, |d.keys|);
      && r.Valid() && r.keys == d.keys
      && (forall k :: k in r.items <==> k in d.items)
      && forall k :: k in r.items ==>
        && r.items[k].kind == d.items[k]
        && r.items[k].tracks == DriveParams[d.items[k]].tracks
        && r.items[k].heads == DriveParams[d.items[k]].heads
        && r.items[k].drive == resolve(k)
  {
    assert d.keys[..|d.keys|] == d.keys;
  }

  // ---------------------------------------------------------------------------
  // rpm

  /** What `gw.read_track(1)` hands back, as far as `measure_rpm` looks at it. */
  datatype Flux = Flux(indexList: seq<real>, sampleFreq: real)

  /**
   * `measure_rpm`: the time of one revolution is the last index position
   * divided by the sample frequency, and the speed is 60 over that.
   */
  function MeasureRpm(flux: Flux): (r: Outcome<real>)
    ensures r.Returned? <==> |flux.indexList| > 0 && flux.sampleFreq != 0.0 && flux.indexList[|flux.indexList| - 1] != 0.0
    ensures r.Returned? ==> r.value * (flux.indexList[|flux.indexList| - 1] / flux.sampleFreq) == 60.0
    ensures r.Raised? ==> (r.exc == IndexError <==> flux.indexList == [])
    ensures r.Raised? ==> r.exc == IndexError || r.exc == ZeroDivisionError
  {
    if flux.indexList == [] then Raised(IndexError)
    else if flux.sampleFreq == 0.0 then Raised(ZeroDivisionError)
    else
      var tpr := flux.indexList[|flux.indexList| - 1] / flux.sampleFreq;
      if tpr == 0.0 then Raised(ZeroDivisionError) else Returned(60.0 / tpr)
  }

  /** `measure_rpm` as the function handed to `use_drive`. */
  function MeasureOp(flux: Flux): DriveDev -> Outcome<real> {
    _ => MeasureRpm(flux)
  }

  // ---------------------------------------------------------------------------
  // The reader

  class FloppyReader {
    /** The validated configuration. */
    const config: Config
    /** The open controller. */
    const gw: Unit
    /** The configured drives, by letter. */
    var drives: Dict<string, DriveRecord>

    /**
     * `__init__` after the configuration is loaded and the controller is
     * open: one record per configured drive, in configuration order, with the
     * geometry of its type and the device `resolve(letter)`.
     */
    constructor(config: Config, gw: Unit, resolve: string -> DriveDev)
      requires DrivesValid(config.drives)
      ensures this.config == config && this.gw == gw
      ensures drives.Valid() && drives.keys == config.drives.keys
      ensures forall k :: k in drives.items <==> k in config.drives.items
      ensures forall k :: k in drives.items ==>
        && drives.items[k].kind == config.drives.items[k]
        && drives.items[k].tracks == DriveParams[config.drives.items[k]].tracks
        && drives.items[k].heads == DriveParams[config.drives.items[k]].heads
        && drives.items[k].drive == resolve(k)
    {
      this.config := config;
      this.gw := gw;
      var d := config.drives;
      var acc: Dict<string, DriveRecord> := Empty();
      assert d.keys[..0] == [];
      for i := 0 to |d.keys|
        invariant acc == RecordsUpTo(d, resolve, i)
      {
        RecordsStep(d, resolve, i);
        var k := d.keys[i];
        acc := acc.Put(k, RecordFor(d.items[k], resolve(k)));
      }
      RecordsComplete(d, resolve);
      drives := acc;
    }

    /**
     * `use_drive(function, drive, motor)`. A letter that is not configured
     * raises before anything is sent; otherwise the commands and the outcome
     * are those of `UseDriveSpec`.
     */
    method UseDrive<R>(op: DriveDev -> Outcome<R>, drive: string, motor: bool) returns (r: Outcome<R>)
      modifies gw
      ensures drive !in drives.items ==> r == Raised(FileNotFound) && gw.trace == old(gw.trace)
      ensures drive in drives.items ==>
        var s := UseDriveSpec(gw.faults, |old(gw.trace)|, drives.items[drive].drive, motor, op);
        gw.trace == old(gw.trace) + s.calls && r == s.result
    {
      if drive !in drives.items {
        return Raised(FileNotFound);
      }
      var dev := drives.items[drive].drive;
      var x := gw.SetBusType(dev.bus);
      if x.Some? {
        return Raised(x.value);
      }
      r := GuardedPart(op, dev, motor);
    }

    /** The `try` / `except` / `finally` statement of `use_drive`. */
    method GuardedPart<R>(op: DriveDev -> Outcome<R>, dev: DriveDev, motor: bool) returns (r: Outcome<R>)
      modifies gw
      ensures var g := Guarded(gw.faults, |old(gw.trace)|, dev, motor, op);
        gw.trace == old(gw.trace) + g.calls && r == g.result
    {
      ghost var n := |gw.trace|;
      ghost var t := TryBlock(gw.faults, n, dev, motor, op);
      var res := TryPart(op, dev, motor);
      ghost var h := Handler(gw.faults, n + |t.calls|, t.result);
      res := ExceptPart(res);
      ghost var c := Cleanup(gw.faults, n + |t.calls| + |h.calls|, dev.unit, h.result);
      r := FinallyPart(dev.unit, res);
      assert gw.trace == old(gw.trace) + (t.calls + h.calls + c.calls);
    }

    /** The `try` block of `use_drive`. */
    method TryPart<R>(op: DriveDev -> Outcome<R>, dev: DriveDev, motor: bool) returns (r: Outcome<R>)
      modifies gw
      ensures var s := TryBlock(gw.faults, |old(gw.trace)|, dev, motor, op);
        gw.trace == old(gw.trace) + s.calls && r == s.result
    {
      var x := gw.DriveSelect(dev.unit);
      if x.Some? {
        return Raised(x.value);
      }
      x := gw.DriveMotor(dev.unit, motor);
      if x.Some? {
        return Raised(x.value);
      }
      r := gw.Perform(op, dev);
    }

    /** The `except KeyboardInterrupt` clause of `use_drive`. */
    method ExceptPart<R>(res: Outcome<R>) returns (r: Outcome<R>)
      modifies gw
      ensures var s := Handler(gw.faults, |old(gw.trace)|, res);
        gw.trace == old(gw.trace) + s.calls && r == s.result
    {
      r := res;
      if res.Raised? && res.exc == KeyboardInterrupt {
        var x := gw.Reset();
        if x.Some? {
          r := Raised(x.value);
        }
      }
    }

    /** The `finally` clause of `use_drive`, followed by `return res`. */
    method FinallyPart<R>(unit: int, res: Outcome<R>) returns (r: Outcome<R>)
      modifies gw
      ensures var s := Cleanup(gw.faults, |old(gw.trace)|, unit, res);
        gw.trace == old(gw.trace) + s.calls && r == s.result
    {
      var x := gw.DriveMotor(unit, false);
      if x.Some? {
        return Raised(x.value);
      }
      x := gw.DriveDeselect();
      if x.Some? {
        return Raised(x.value);
      }
      r := res;
    }

    /** `rpm(drive)`: `measure_rpm` run through `use_drive` with the motor on. */
    method Rpm(drive: string, flux: Flux) returns (r: Outcome<real>)
      modifies gw
      ensures drive !in drives.items ==> r == Raised(FileNotFound) && gw.trace == old(gw.trace)
      ensures drive in drives.items ==>
        var s := UseDriveSpec(gw.faults, |old(gw.trace)|, drives.items[drive].drive, true, MeasureOp(flux));
        gw.trace == old(gw.trace) + s.calls && r == s.result
    {
      r := UseDrive(MeasureOp(flux), drive, true);
    }

    /** `probe(drive)`: looks up the drive's record (the value it prints), changing nothing. */
    method Probe(drive: string) returns (r: Outcome<DriveRecord>)
      ensures r.Returned? <==> drive in drives.items
      ensures r.Returned? ==> r.value == drives.items[drive]
      ensures r.Raised? ==> r.exc == KeyError
    {
      if drive in drives.items {
        r := Returned(drives.items[drive]);
      } else {
        r := Raised(KeyError);
      }
    }
  }
}
