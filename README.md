# FloppyDiskReader core, in Dafny

This project models `floppy.py`, the core of FloppyDiskReader. FloppyDiskReader reads floppy disks through a Greaseweazle USB controller. The model has three parts.

- **Configuration** (`config.dfy`, module `FloppyConfig`).
  - `drive_params` maps each supported drive type (`5.25DD`, `5.25HD`, `3.5DD`, `3.5HD`) to its track and head count.
  - The pydantic field validators `check_drives` and `check_formats` check and normalise the `drives` and `formats` sections of the configuration file.
  - Loading the file runs both validators and reports each validator's first objection, those about `drives` first.
  - Each validator is a method whose loop mirrors the Python `for` loop. It is proved equal to a recursive specification (`ValidatedDrives`, `ValidatedFormats`). A second, declarative reading ("the first bad entry's error, or else every normalised entry written into the dict in order") is proved equal to that specification. The accept/reject conditions, the output invariants, the last-assignment-wins behaviour, flattening and idempotence are proved from it.
- **Python dictionaries** (`dicts.dfy`, module `Dicts`). Insertion order and the meaning of `d[k] = v` matter here. An existing key keeps its place and gets the new value; a new key goes to the end.
- **The reader** (`greaseweazle.dfy`, `reader.dfy`, modules `Greaseweazle` and `Floppy`).
  - The controller is an object (`Greaseweazle.Unit`) that records every command sent to it.
  - A fixed fault table says which commands raise, and with what. A Ctrl-C that arrives during a command is a `KeyboardInterrupt` fault.
  - `FloppyReader` builds its table of drives from the validated configuration.
  - `use_drive` runs a job on a drive between select / motor on and motor off / deselect. It resets the controller when interrupted.
  - `UseDriveSpec` (`session.dfy`, module `DriveSession`) states exactly which commands are sent and how the call ends, following Python's try / except / finally rules. Lemmas then prove the cleanup guarantees for every path.

`str.upper` is modelled on ASCII letters, and `str(int)` as decimal notation with a leading `-`. That is enough to decide which integer keys are accepted: exactly 0, 1 and 2.

`probe` (floppy.py:127-129) only prints the drive's record; `floppy.py` has no format-identification engine.

## Model

| member | source | states |
|---|---|---|
| FloppyConfig.CheckDrives | floppy.py:34-44 | the loop returns the verdict of `ValidatedDrives`: the first bad entry's error, otherwise the mapping of every normalised letter to its upper-cased type |
| FloppyConfig.DrivesCharacterized | floppy.py:36-43 | `check_drives` equals "first error among the entries' verdicts, else all normalised entries assigned in order into the dict" |
| FloppyConfig.IntKeyAccepted | floppy.py:37-39 | an integer key passes the letter check exactly when it is 0, 1 or 2 |
| FloppyConfig.DrivesAccepted | floppy.py:36-43 | `check_drives` accepts if and only if every key, as `str(k).upper()`, is one of 0,1,2,A,B and every type, upper-cased, is a `drive_params` key |
| FloppyConfig.DrivesFirstError | floppy.py:38-42 | the first bad entry decides the error; within an entry a bad letter is reported before a bad type |
| FloppyConfig.DrivesOutputValid | floppy.py:38-43 | on success every output key is a valid letter and every output value a `drive_params` key, with distinct keys |
| FloppyConfig.DrivesDomain | floppy.py:37-43 | the output's keys are exactly the normalised letters of the entries |
| FloppyConfig.DrivesLastWins | floppy.py:37-43 | when two keys normalise to the same letter, the later entry's type is the one stored |
| FloppyConfig.ValidNamesUpper | floppy.py:16-21 | the valid letters and the `drive_params` keys are already upper case |
| FloppyConfig.DrivesIdempotent | floppy.py:34-44 | validating an already validated `drives` mapping again gives it back unchanged |
| FloppyConfig.FlattenFormats | floppy.py:58-63 | the `extend` / `append` loop builds `Flatten(v)` |
| FloppyConfig.FlattenAppend | floppy.py:58-63 | flattening distributes over concatenation of the input lists |
| FloppyConfig.FlattenLength | floppy.py:58-63 | the flattened list's length is the sum of the elements' sizes (1 for a bare name) |
| FloppyConfig.FlattenPlaces | floppy.py:58-63 | element i's names appear, in order and contiguously, right after the names of the elements before it |
| FloppyConfig.FlattenMembers | floppy.py:58-63 | a name is in the flattened list exactly when some element contributes it |
| FloppyConfig.CheckFormats | floppy.py:50-71 | the loop (with its inner support check) returns the verdict of `ValidatedFormats` |
| FloppyConfig.FormatsCharacterized | floppy.py:54-70 | `check_formats` equals "first error among the entries' verdicts, else all (upper-cased type, flattened list) pairs assigned in order" |
| FloppyConfig.FormatEntryAccepted | floppy.py:55-68 | one entry passes if and only if its upper-cased type is a `drive_params` key and every flattened name is supported |
| FloppyConfig.FormatsAccepted | floppy.py:54-70 | `check_formats` accepts if and only if every entry passes |
| FloppyConfig.FormatsFirstError | floppy.py:55-68 | the first bad entry decides the error: a bad type, else its first unsupported name |
| FloppyConfig.FormatsOutputValid | floppy.py:56-70 | on success every output key is a `drive_params` key and every listed format is supported |
| FloppyConfig.FormatsLastWins | floppy.py:55-70 | when two types upper-case to the same key, the later entry's list is the one stored |
| FloppyConfig.FormatsIdempotent | floppy.py:50-71 | validating an already validated `formats` mapping again gives it back unchanged |
| FloppyConfig.LoadConfig | floppy.py:76-77 | the configuration loads if and only if both validators accept; the result is their outputs; otherwise the first error of each failing validator, drives first |
| Dicts.PutAllDomain | floppy.py:43 | after assigning a list of pairs, a key is present exactly when it was present before or is assigned |
| Dicts.PutAllLastWins | floppy.py:43 | after assigning a list of pairs, a key holds the value of its last assignment |
| Dicts.PutAllReplay | floppy.py:36-43 | assigning a dict's items in iteration order into an empty dict rebuilds it, order included |
| Floppy.RecordFor | floppy.py:86-90 | a drive record carries its type, its device and the type's geometry: 2 heads, 40 tracks for 5.25DD and 80 otherwise |
| Floppy.FloppyReader.constructor | floppy.py:84-90 | `self.drives` has one record per configured letter, in configuration order, holding the type, the `drive_params` geometry and the letter's device |
| Floppy.FloppyReader.UseDrive | floppy.py:93-114 | an unconfigured letter raises `FileNotFoundError` with no command sent; otherwise the commands and outcome are those of `UseDriveSpec` |
| Floppy.FloppyReader.GuardedPart | floppy.py:104-113 | the try / except / finally statement sends the commands of `Guarded` and ends as it says |
| Floppy.FloppyReader.TryPart | floppy.py:104-107 | select, motor, job; the first failure ends the block with its exception |
| Floppy.FloppyReader.ExceptPart | floppy.py:108-110 | only a `KeyboardInterrupt` triggers `reset()`; a failing reset replaces the interrupt |
| Floppy.FloppyReader.FinallyPart | floppy.py:111-114 | motor off then deselect on every exit; a failure there replaces the outcome and a failing motor-off skips the deselect |
| DriveSession.BusTypeFaultSkipsCleanup | floppy.py:101-104 | exactly when `set_bus_type` (outside the `try`) fails, it is the only command sent, and its exception escapes with no cleanup |
| DriveSession.CleanupOnEveryExit | floppy.py:102-113 | once the bus type is set, the commands start with set-bus and select, and end with motor off then deselect, or with a failing motor off whose exception is raised |
| DriveSession.ResetIffInterrupted | floppy.py:104-110 | `reset()` is sent if and only if the try block ends in a `KeyboardInterrupt` (from select, motor or the job) |
| DriveSession.ResetBeforeCleanup | floppy.py:108-112 | every `reset()` is immediately followed by switching the motor off |
| DriveSession.ResetThenCleanup | floppy.py:108-113 | after an interrupt the handler sends exactly `reset()`; when reset, motor off and deselect succeed, the cleanup is motor off then deselect and the interrupt is kept |
| DriveSession.MotorOffFaultSkipsDeselect | floppy.py:111-113 | the `finally` block starts with motor off; when that fails it is the only command and its exception escapes, otherwise the deselect follows |
| DriveSession.InterruptReraised | floppy.py:104-113 | once the try block is interrupted and the reset, motor off and deselect after it succeed, they are the last three commands and the `KeyboardInterrupt` is raised again |
| DriveSession.MotorOnlyIfAsked | floppy.py:102-106 | the motor is switched on if and only if the caller asked for it and bus type and select succeeded |
| DriveSession.CleanExit | floppy.py:102-114 | with no failing command and no interrupt, exactly set-bus, select, motor, job, motor off, deselect are sent and the job's return value or exception is passed through unchanged |
| DriveSession.CleanupKeepsOutcome | floppy.py:104-114 | when motor off and deselect succeed, `use_drive` ends exactly as the try block and its handler left it: nothing is swallowed or replaced |
| DriveSession.SelectFaultPropagated | floppy.py:105-113 | a `drive_select` failing with anything but an interrupt is followed by motor off and deselect, and when those succeed it is raised to the caller unchanged |
| DriveSession.MotorFaultPropagated | floppy.py:106-113 | a `drive_motor` failing with anything but an interrupt is followed by motor off and deselect, and when those succeed it is raised to the caller unchanged |
| DriveSession.NoInventedOutcome | floppy.py:102-114 | a returned value is the job's and the job ran; every raised exception is the job's or that of a command this call sent (its number lies within the call's commands) |
| Floppy.MeasureRpm | floppy.py:119-122 | the speed times the revolution time is 60; it raises `IndexError` for an empty index list and `ZeroDivisionError` for a zero sample frequency or a zero last index |
| Floppy.FloppyReader.Rpm | floppy.py:117-124 | `rpm` is `use_drive` with the motor on and `measure_rpm` as the job |
| Floppy.FloppyReader.Probe | floppy.py:127-129 | changes nothing; yields the drive's record when configured, and raises `KeyError` otherwise |
| Greaseweazle.Unit.SetBusType | floppy.py:102 | the command is appended to the trace and raises what the fault table says for its position |
| Greaseweazle.Unit.DriveSelect | floppy.py:105 | as above, for `drive_select` |
| Greaseweazle.Unit.DriveMotor | floppy.py:106 | as above, for `drive_motor` |
| Greaseweazle.Unit.Reset | floppy.py:109 | as above, for `reset` |
| Greaseweazle.Unit.DriveDeselect | floppy.py:113 | as above, for `drive_deselect` |
| Greaseweazle.Unit.Perform | floppy.py:107 | the job runs once, is recorded as one entry and ends as `op(dev)` |

## Left out

- Opening and parsing the YAML file, and opening the USB connection (floppy.py:76-81): file and USB I/O. The model starts from the parsed document (`RawConfig`) and an open controller. The `port` field only chooses the USB device and is not modelled.
- Pydantic's coercion of raw YAML values into `dict[str | int, str]` and `dict[str, list[list[str] | str]]`: the model's inputs are already of those shapes. The error messages become the constructors of `ConfigError`.
- `codec.get_all_formats`: foreign code. It is the `supported` parameter, the same set for every entry.
- `util.Drive()(letter)`: foreign code. It is the `resolve` parameter of the constructor, and the resulting device is a (bus, unit) pair.
- Non-ASCII upper-casing: `Upper` folds only `a`-`z`, so Unicode special cases such as `ß` are not modelled.
- What the job does on the controller (for `rpm`, `read_track(1)`): it is summed up as one `Operation` entry, and the fault table is not consulted at that position. The job's outcome is the function `op`. The extra `*args, **kwargs` forwarded to it are not modelled.
- A `KeyboardInterrupt` that arrives between commands rather than during one is not modelled. Interrupts come only from commands and from the job.
- Floppy.MeasureRpm: the source computes in binary floating point; the model uses exact real numbers, so rounding, infinities and NaN are not modelled.
- Floppy.FloppyReader.Probe: the source prints the record and returns `None`; the model hands back the printed record as its value.
- `main` (floppy.py:139-148): logging of `rpm` and `probe` for every drive.
- Real hardware effects of select, motor and seek: only the ordered command trace is kept.
- FloppyDiskReader.py is not part of this model: it is the PySide6 GUI. It calls `get_formats_for_drive` and `probe(drive, callback=...)`, which do not exist in floppy.py, and its `read` is empty.
- `floppy.py` contains no probe / scoring / retry engine; none is modelled.
