/**
 * What `use_drive` sends to the controller and how it ends, as a function of
 * the controller's fault table, following Python's try / except / finally
 * rules; and the cleanup guarantees that follow for every path.
 */
module DriveSession {
  import opened Greaseweazle

  /** The commands a stretch of code sends and how it ends. */
  datatype Session<R> = Session(calls: seq<Call>, result: Outcome<R>)

  /** The `try` block; `n` is the number of the `drive_select` command. */
  function TryBlock<R>(faults: map<nat, Exc>, n: nat, dev: DriveDev, motor: bool, op: DriveDev -> Outcome<R>): Session<R> {
    if n in faults then
      Session([DriveSelect(dev.unit)], Raised(faults[n]))
    else if n + 1 in faults then
      Session([DriveSelect(dev.unit), DriveMotor(dev.unit, motor)], Raised(faults[n + 1]))
    else
      Session([DriveSelect(dev.unit), DriveMotor(dev.unit, motor), Operation(dev)], op(dev))
  }

  /** `except KeyboardInterrupt: reset(); raise`; a failing reset replaces the interrupt. */
  function Handler<R>(faults: map<nat, Exc>, n: nat, r: Outcome<R>): Session<R> {
    if r.Raised? && r.exc == KeyboardInterrupt then
      Session([Reset], if n in faults then Raised(faults[n]) else r)
    else
      Session([], r)
  }

  /** The `finally` block; an exception in it replaces whatever was under way. */
  function Cleanup<R>(faults: map<nat, Exc>, n: nat, unit: int, r: Outcome<R>): Session<R> {
    if n in faults then
      Session([DriveMotor(unit, false)], Raised(faults[n]))
    else if n + 1 in faults then
      Session([DriveMotor(unit, false), DriveDeselect], Raised(faults[n + 1]))
    else
      Session([DriveMotor(unit, false), DriveDeselect], r)
  }

  /** The `try` / `except` / `finally` statement, its first command being number `n`. */
  function Guarded<R>(faults: map<nat, Exc>, n: nat, dev: DriveDev, motor: bool, op: DriveDev -> Outcome<R>): Session<R> {
    var t := TryBlock(faults, n, dev, motor, op);
    var h := Handler(faults, n + |t.calls|, t.result);
    var c := Cleanup(faults, n + |t.calls| + |h.calls|, dev.unit, h.result);
    Session(t.calls + h.calls + c.calls, c.result)
  }

  /**
   * `use_drive` on a configured drive whose device is `dev`, when the
   * controller has already been sent `n` commands. `set_bus_type` stands
   * before the `try`, so its failure skips the cleanup.
   */
  function UseDriveSpec<R>(faults: map<nat, Exc>, n: nat, dev: DriveDev, motor: bool, op: DriveDev -> Outcome<R>): Session<R> {
    if n in faults then
      Session([SetBusType(dev.bus)], Raised(faults[n]))
    else
      var g := Guarded(faults, n + 1, dev, motor, op);
      Session([SetBusType(dev.bus)] + g.calls, g.result)
  }

  /** The try block ends in a KeyboardInterrupt: from one of its commands, or from the job. */
  predicate Interrupted<R>(faults: map<nat, Exc>, n: nat, dev: DriveDev, op: DriveDev -> Outcome<R>) {
    if n in faults then faults[n] == KeyboardInterrupt
    else if n + 1 in faults then faults[n + 1] == KeyboardInterrupt
    else op(dev).Raised? && op(dev).exc == KeyboardInterrupt
  }

  /** `Interrupted` says exactly when the try block ends in a `KeyboardInterrupt`. */
  lemma {:induction false} InterruptedTry<R>(faults: map<nat, Exc>, n: nat, dev: DriveDev, motor: bool, op: DriveDev -> Outcome<R>)
    ensures var t := TryBlock(faults, n, dev, motor, op);
      (t.result.Raised? && t.result.exc == KeyboardInterrupt) <==> Interrupted(faults, n, dev, op)
  {
  }

  /** A failing `set_bus_type` is the only command sent, and its exception escapes. */
  lemma {:induction false} BusTypeFaultSkipsCleanup<R>(faults: map<nat, Exc>, n: nat, dev: DriveDev, motor: bool, op: DriveDev -> Outcome<R>)
    ensures var s := UseDriveSpec(faults, n, dev, motor, op);
      (n in faults <==> |s.calls| == 1) &&
      (n in faults ==> s.calls == [SetBusType(dev.bus)] && s.result == Raised(faults[n]))
  {
  }

  /**
   * Once the bus type is set, the drive is always switched off and then
   * deselected; the deselect is missing only when switching off failed, and
   * then that failure is what the call raises.
   */
  lemma {:induction false} CleanupOnEveryExit<R>(faults: map<nat, Exc>, n: nat, dev: DriveDev, motor: bool, op: DriveDev -> Outcome<R>)
    requires n !in faults
    ensures var s := UseDriveSpec(faults, n, dev, motor, op);
      var last := |s.calls| - 1;
      && 3 <= |s.calls| <= 7
      && s.calls[0] == SetBusType(dev.bus)
      && s.calls[1] == DriveSelect(dev.unit)
      && (|| (s.calls[last - 1] == DriveMotor(dev.unit, false) && s.calls[last] == DriveDeselect)
          || (s.calls[last] == DriveMotor(dev.unit, false) && n + last in faults && s.result == Raised(faults[n + last])))
  {
  }

  /** The commands of `use_drive` once the bus type is set: the try block, the handler, the cleanup. */
  lemma {:induction false} UseDriveParts<R>(faults: map<nat, Exc>, n: nat, dev: DriveDev, motor: bool, op: DriveDev -> Outcome<R>)
    requires n !in faults
    ensures var t := TryBlock(faults, n + 1, dev, motor, op);
      var h := Handler(faults, n + 1 + |t.calls|, t.result);
      var c := Cleanup(faults, n + 1 + |t.calls| + |h.calls|, dev.unit, h.result);
      && UseDriveSpec(faults, n, dev, motor, op).calls == ([SetBusType(dev.bus)] + t.calls) + h.calls + c.calls
      && Reset !in [SetBusType(dev.bus)] + t.calls
      && Reset !in c.calls && c.calls != [] && c.calls[0] == DriveMotor(dev.unit, false)
      && h.calls == (if Interrupted(faults, n + 1, dev, op) then [Reset] else [])
  {
    InterruptedTry(faults, n + 1, dev, motor, op);
  }

  /** The controller is reset exactly when the try block was interrupted. */
  lemma {:induction false} ResetIffInterrupted<R>(faults: map<nat, Exc>, n: nat, dev: DriveDev, motor: bool, op: DriveDev -> Outcome<R>)
    requires n !in faults
    ensures Reset in UseDriveSpec(faults, n, dev, motor, op).calls <==> Interrupted(faults, n + 1, dev, op)
  {
    UseDriveParts(faults, n, dev, motor, op);
  }

  /** Every reset is immediately followed by switching the motor off. */
  lemma {:induction false} ResetBeforeCleanup<R>(faults: map<nat, Exc>, n: nat, dev: DriveDev, motor: bool, op: DriveDev -> Outcome<R>)
    requires n !in faults
    ensures var s := UseDriveSpec(faults, n, dev, motor, op);
      forall i :: 0 <= i < |s.calls| && s.calls[i] == Reset ==>
        i + 1 < |s.calls| && s.calls[i + 1] == DriveMotor(dev.unit, false)
  {
    UseDriveParts(faults, n, dev, motor, op);
    var t := TryBlock(faults, n + 1, dev, motor, op);
    var h := Handler(faults, n + 1 + |t.calls|, t.result);
    var c := Cleanup(faults, n + 1 + |t.calls| + |h.calls|, dev.unit, h.result);
    if h.calls == [Reset] {
      ResetFollowedBy([SetBusType(dev.bus)] + t.calls, c.calls, DriveMotor(dev.unit, false));
    } else {
      assert Reset !in UseDriveSpec(faults, n, dev, motor, op).calls;
    }
  }

  /** In `a + [Reset] + b` with no other reset, the reset is followed by the first command of `b`. */
  lemma {:induction false} ResetFollowedBy(a: seq<Call>, b: seq<Call>, next: Call)
    requires Reset !in a && Reset !in b && b != [] && b[0] == next
    ensures Reset in a + [Reset] + b
    ensures forall i :: 0 <= i < |a + [Reset] + b| && (a + [Reset] + b)[i] == Reset ==>
      i + 1 < |a + [Reset] + b| && (a + [Reset] + b)[i + 1] == next
  {
    var s := a + [Reset] + b;
    assert s[|a|] == Reset;
    assert forall j :: 0 <= j < |a| ==> s[j] == a[j] && a[j] in a;
    assert forall j :: |a| < j < |s| ==> s[j] == b[j - |a| - 1] && b[j - |a| - 1] in b;
    assert s[|a| + 1] == b[0];
  }

  /** The last `|b|` elements of `a + b` are `b`. */
  lemma {:induction false} SuffixOf(a: seq<Call>, b: seq<Call>)
    ensures (a + b)[|a + b| - |b|..] == b
  {
    assert (a + b)[|a|..] == b;
  }

  /**
   * When the try block is interrupted and the reset, motor off and deselect
   * that follow all succeed, they are the last three commands and the
   * interrupt is raised again.
   */
  lemma {:induction false} InterruptReraised<R>(faults: map<nat, Exc>, n: nat, dev: DriveDev, motor: bool, op: DriveDev -> Outcome<R>)
    requires Interrupted(faults, n, dev, op)
    ensures var g := Guarded(faults, n, dev, motor, op);
      var k := n + |g.calls|;
      k - 3 !in faults && k - 2 !in faults && k - 1 !in faults ==>
        g.calls[|g.calls| - 3..] == [Reset, DriveMotor(dev.unit, false), DriveDeselect] &&
        g.result == Raised(KeyboardInterrupt)
  {
    var t := TryBlock(faults, n, dev, motor, op);
    var m := n + |t.calls|;
    InterruptedTry(faults, n, dev, motor, op);
    ResetThenCleanup(faults, m, dev.unit, t.result);
    var c := Cleanup(faults, m + 1, dev.unit, Handler(faults, m, t.result).result);
    MotorOffFaultSkipsDeselect(faults, m + 1, dev.unit, Handler(faults, m, t.result).result);
    InterruptedTail(Guarded(faults, n, dev, motor, op), t.calls, c, n, faults, dev.unit);
  }

  /** The index arithmetic behind `InterruptReraised`, for a trace `t + [Reset] + c` numbered from `n`. */
  lemma {:induction false} InterruptedTail<R>(g: Session<R>, t: seq<Call>, c: Session<R>, n: nat, faults: map<nat, Exc>, unit: int)
    requires g.calls == t + ([Reset] + c.calls) && g.result == c.result
    requires var m := n + |t|;
      && |c.calls| == (if m + 1 in faults then 1 else 2)
      && (m !in faults && m + 1 !in faults && m + 2 !in faults ==>
            c.calls == [DriveMotor(unit, false), DriveDeselect] && c.result == Raised(KeyboardInterrupt))
    ensures var k := n + |g.calls|;
      k - 3 !in faults && k - 2 !in faults && k - 1 !in faults ==>
        g.calls[|g.calls| - 3..] == [Reset, DriveMotor(unit, false), DriveDeselect] &&
        g.result == Raised(KeyboardInterrupt)
  {
    var m := n + |t|;
    if m !in faults && m + 1 !in faults && m + 2 !in faults {
      SuffixOf(t, [Reset] + c.calls);
    }
  }

  /** The tail of `use_drive` after an interrupted try block that ended at command `m`. */
  lemma {:induction false} ResetThenCleanup<R>(faults: map<nat, Exc>, m: nat, unit: int, r: Outcome<R>)
    requires r == Raised(KeyboardInterrupt)
    ensures var h := Handler(faults, m, r);
      var c := Cleanup(faults, m + 1, unit, h.result);
      && h.calls == [Reset]
      && (m !in faults && m + 1 !in faults && m + 2 !in faults ==>
            c.calls == [DriveMotor(unit, false), DriveDeselect] && c.result == r)
  {
  }

  /**
   * The `finally` block always starts by switching the motor off; when that
   * fails it is the only command, its exception is what escapes, and the
   * deselect is never sent.
   */
  lemma {:induction false} MotorOffFaultSkipsDeselect<R>(faults: map<nat, Exc>, n: nat, unit: int, r: Outcome<R>)
    ensures var c := Cleanup(faults, n, unit, r);
      && c.calls != [] && c.calls[0] == DriveMotor(unit, false)
      && |c.calls| == (if n in faults then 1 else 2)
      && (n in faults ==> c.result == Raised(faults[n]))
      && (n !in faults ==> c.calls[1] == DriveDeselect)
  {
  }

  /** The motor is switched on only when the caller asked for it, and then only after a successful select. */
  lemma {:induction false} MotorOnlyIfAsked<R>(faults: map<nat, Exc>, n: nat, dev: DriveDev, motor: bool, op: DriveDev -> Outcome<R>)
    ensures DriveMotor(dev.unit, true) in UseDriveSpec(faults, n, dev, motor, op).calls <==>
      motor && n !in faults && n + 1 !in faults
  {
    var s := UseDriveSpec(faults, n, dev, motor, op);
    if n !in faults {
      var t := TryBlock(faults, n + 1, dev, motor, op);
      var h := Handler(faults, n + 1 + |t.calls|, t.result);
      var c := Cleanup(faults, n + 1 + |t.calls| + |h.calls|, dev.unit, h.result);
      assert s.calls == [SetBusType(dev.bus)] + t.calls + (h.calls + c.calls);
      assert DriveMotor(dev.unit, true) !in h.calls + c.calls;
      assert DriveMotor(dev.unit, true) in t.calls <==> motor && n + 1 !in faults;
    }
  }

  /**
   * With no command failing, `use_drive` sends select, motor, the job, motor
   * off and deselect after the bus type, and ends as the job ended (a
   * returned value or an exception other than an interrupt).
   */
  lemma {:induction false} CleanExit<R>(faults: map<nat, Exc>, n: nat, dev: DriveDev, motor: bool, op: DriveDev -> Outcome<R>)
    requires n !in faults && n + 1 !in faults && n + 2 !in faults && n + 4 !in faults && n + 5 !in faults
    requires !(op(dev).Raised? && op(dev).exc == KeyboardInterrupt)
    ensures var s := UseDriveSpec(faults, n, dev, motor, op);
      && s.calls == [SetBusType(dev.bus), DriveSelect(dev.unit), DriveMotor(dev.unit, motor), Operation(dev),
                     DriveMotor(dev.unit, false), DriveDeselect]
      && s.result == op(dev)
  {
  }

  /**
   * When switching the motor off and deselecting both succeed, `use_drive`
   * ends as the `try` block and its handler left it: the pending value or
   * exception is neither swallowed nor replaced.
   */
  lemma {:induction false} CleanupKeepsOutcome<R>(faults: map<nat, Exc>, n: nat, dev: DriveDev, motor: bool, op: DriveDev -> Outcome<R>)
    requires n !in faults
    ensures var t := TryBlock(faults, n + 1, dev, motor, op);
      var h := Handler(faults, n + 1 + |t.calls|, t.result);
      var m := n + 1 + |t.calls| + |h.calls|;
      m !in faults && m + 1 !in faults ==> UseDriveSpec(faults, n, dev, motor, op).result == h.result
  {
  }

  /**
   * A `drive_select` that fails with anything but an interrupt: the motor is
   * switched off, the drive deselected, and that failure reaches the caller.
   */
  lemma {:induction false} SelectFaultPropagated<R>(faults: map<nat, Exc>, n: nat, dev: DriveDev, motor: bool, op: DriveDev -> Outcome<R>)
    requires n !in faults && n + 1 in faults && faults[n + 1] != KeyboardInterrupt
    requires n + 2 !in faults && n + 3 !in faults
    ensures var s := UseDriveSpec(faults, n, dev, motor, op);
      && s.calls == [SetBusType(dev.bus), DriveSelect(dev.unit), DriveMotor(dev.unit, false), DriveDeselect]
      && s.result == Raised(faults[n + 1])
  {
  }

  /**
   * A `drive_motor` that fails with anything but an interrupt: the motor is
   * switched off, the drive deselected, and that failure reaches the caller.
   */
  lemma {:induction false} MotorFaultPropagated<R>(faults: map<nat, Exc>, n: nat, dev: DriveDev, motor: bool, op: DriveDev -> Outcome<R>)
    requires n !in faults && n + 1 !in faults && n + 2 in faults && faults[n + 2] != KeyboardInterrupt
    requires n + 3 !in faults && n + 4 !in faults
    ensures var s := UseDriveSpec(faults, n, dev, motor, op);
      && s.calls == [SetBusType(dev.bus), DriveSelect(dev.unit), DriveMotor(dev.unit, motor),
                     DriveMotor(dev.unit, false), DriveDeselect]
      && s.result == Raised(faults[n + 2])
  {
  }

  /**
   * A value `use_drive` returns is the job's, and every exception it raises is
   * the job's or that of one of the commands this call sent.
   */
  lemma {:induction false} NoInventedOutcome<R>(faults: map<nat, Exc>, n: nat, dev: DriveDev, motor: bool, op: DriveDev -> Outcome<R>)
    ensures var s := UseDriveSpec(faults, n, dev, motor, op);
      && (s.result.Returned? ==> s.result == op(dev) && Operation(dev) in s.calls)
      && (s.result.Raised? ==>
            || (exists j :: n <= j < n + |s.calls| && j in faults && s.result == Raised(faults[j]))
            || s.result == op(dev))
  {
    var s := UseDriveSpec(faults, n, dev, motor, op);
    if n in faults {
      assert n < n + |s.calls| && s.result == Raised(faults[n]);
    } else {
      var t := TryBlock(faults, n + 1, dev, motor, op);
      var h := Handler(faults, n + 1 + |t.calls|, t.result);
      var m := 1 + |t.calls| + |h.calls|;
      var c := Cleanup(faults, n + m, dev.unit, h.result);
      assert s.calls == [SetBusType(dev.bus)] + t.calls + h.calls + c.calls;
      assert s.result == c.result;
      if n + m in faults {
        assert n + m < n + |s.calls| && s.result == Raised(faults[n + m]);
      } else if n + m + 1 in faults {
        assert n + m + 1 < n + |s.calls| && s.result == Raised(faults[n + m + 1]);
      } else if h.calls == [Reset] && n + 1 + |t.calls| in faults {
        assert h.result == Raised(faults[n + 1 + |t.calls|]);
        assert n + 1 + |t.calls| < n + |s.calls| && s.result == Raised(faults[n + 1 + |t.calls|]);
      } else if n + 1 in faults {
        assert n + 1 < n + |s.calls| && s.result == Raised(faults[n + 1]);
      } else if n + 2 in faults {
        assert n + 2 < n + |s.calls| && s.result == Raised(faults[n + 2]);
      } else {
        assert s.result == op(dev);
        assert s.calls[3] == Operation(dev);
      }
    }
  }
}
