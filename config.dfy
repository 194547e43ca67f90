/**
 * The configuration schema of floppy.py (FloppyReaderConfig and its nested
 * GreaseWeazleConfig): the fixed drive-type table and the two field validators
 * that check and normalise the `drives` and `formats` entries.
 */
module FloppyConfig {
  import opened Wrappers
  import opened Dicts
  import opened Text

  datatype Geometry = Geometry(tracks: nat, heads: nat)

  /** `drive_params`: the supported drive types and their geometry. */
  const DriveParams: map<string, Geometry> := map[
    "5.25DD" := Geometry(40, 2),
    "5.25HD" := Geometry(80, 2),
    "3.5DD" := Geometry(80, 2),
    "3.5HD" := Geometry(80, 2)
  ]

  /** The drive letters the Greaseweazle understands. */
  const DriveLetters: set<string> := {"0", "1", "2", "A", "B"}

  /** A key of the `drives` mapping: YAML gives either an integer or a string. */
  datatype DriveKey = IntKey(n: int) | StrKey(s: string)

  /** An element of a `formats` list: a nested list of names or a bare name. */
  datatype FormatItem = Group(names: seq<string>) | Single(name: string)

  /** The ValueErrors the validators raise. */
  datatype ConfigError =
    | BadDriveLetter                 // "Drive letter must be 0, 1, 2, A, or B"
    | BadDriveType                   // "Drive Type must be one of: [...]"
    | FormatNotSupported(name: string)  // "Format <name> not supported"

  // ---------------------------------------------------------------------------
  // First failure of a sequence of per-entry checks

  /** The first error in `errs`, scanning from the front. */
  function FirstError<E>(errs: seq<Option<E>>): Option<E> {
    if errs == [] then None
    else if errs[0].Some? then errs[0]
    else FirstError(errs[1..])
  }

  /** No error is reported exactly when every check passed. */
  lemma {:induction false} FirstErrorNone<E>(errs: seq<Option<E>>)
    ensures FirstError(errs) == None <==> forall i :: 0 <= i < |errs| ==> errs[i] == None
  {
    if errs != [] && errs[0].None? {
      FirstErrorNone(errs[1..]);
      assert forall i :: 1 <= i < |errs| ==> errs[i] == errs[1..][i - 1];
    }
  }

  /** The verdict of a validator: its first error if there was one, else its output. */
  function Verdict<T>(first: Option<ConfigError>, out: T): Result<T, ConfigError> {
    match first
    case Some(e) => Err(e)
    case None => Ok(out)
  }

  /** When entry `i` is the first failing one, its error is the one reported. */
  lemma {:induction false} FirstErrorAt<E>(errs: seq<Option<E>>, i: nat)
    requires i < |errs| && errs[i].Some?
    requires forall j :: 0 <= j < i ==> errs[j] == None
    ensures FirstError(errs) == errs[i]
  {
    if i > 0 {
      FirstErrorAt(errs[1..], i - 1);
    }
  }

  // ---------------------------------------------------------------------------
  // check_drives

  /** `str(k).upper()` */
  function NormalLetter(k: DriveKey): string {
    match k
    case IntKey(n) => Upper(IntToDecimal(n))
    case StrKey(s) => Upper(s)
  }

  /** What `check_drives` objects to in one entry: the letter first, then the type. */
  function DriveEntryError(e: (DriveKey, string)): Option<ConfigError> {
    if NormalLetter(e.0) !in DriveLetters then Some(BadDriveLetter)
    else if Upper(e.1) !in DriveParams then Some(BadDriveType)
    else None
  }

  /**
   * The loop of `check_drives` over the remaining entries `v`, with the
   * entries accepted so far in `acc`: the first bad entry ends it with its error.
   */
  function ValidatedDrives(acc: Dict<string, string>, v: seq<(DriveKey, string)>): Result<Dict<string, string>, ConfigError>
    decreases |v|
  {
    if v == [] then Ok(acc)
    else match DriveEntryError(v[0])
      case Some(e) => Err(e)
      case None => ValidatedDrives(acc.Put(NormalLetter(v[0].0), Upper(v[0].1)), v[1..])
  }

  /** `GreaseWeazleConfig.check_drives` */
  method CheckDrives(value: seq<(DriveKey, string)>) returns (r: Result<Dict<string, string>, ConfigError>)
    ensures r == ValidatedDrives(Empty(), value)
  {
    var acc := Empty();
    assert value[0..] == value;
    for i := 0 to |value|
      invariant ValidatedDrives(acc, value[i..]) == ValidatedDrives(Empty(), value)
    {
      var (k, v) := value[i];
      var nk := NormalLetter(k);
      if nk !in DriveLetters {
        return Err(BadDriveLetter);
      }
      var nv := Upper(v);
      if nv !in DriveParams {
        return Err(BadDriveType);
      }
      assert value[i..][1..] == value[i + 1..];
      acc := acc.Put(nk, nv);
    }
    return Ok(acc);
  }

  /** Each entry's verdict, in order. */
  function DriveErrors(v: seq<(DriveKey, string)>): seq<Option<ConfigError>> {
    seq(|v|, i requires 0 <= i < |v| => DriveEntryError(v[i]))
  }

  /** The entries as `check_drives` stores them: normalised letter, upper-cased type. */
  function NormalDrives(v: seq<(DriveKey, string)>): seq<(string, string)> {
    seq(|v|, i requires 0 <= i < |v| => (NormalLetter(v[i].0), Upper(v[i].1)))
  }

  /**
   * `check_drives` read declaratively: the error of the first bad entry, or
   * else every normalised entry assigned into the dict in order.
   */
  lemma {:induction false} DrivesCharacterized(acc: Dict<string, string>, v: seq<(DriveKey, string)>)
    ensures ValidatedDrives(acc, v) == Verdict(FirstError(DriveErrors(v)), PutAll(acc, NormalDrives(v)))
    decreases |v|
  {
    if v != [] {
      assert DriveErrors(v)[1..] == DriveErrors(v[1..]);
      assert NormalDrives(v)[1..] == NormalDrives(v[1..]);
      DrivesCharacterized(acc.Put(NormalLetter(v[0].0), Upper(v[0].1)), v[1..]);
    }
  }

  /** An integer key is accepted exactly when it is 0, 1 or 2. */
  lemma {:induction false} IntKeyAccepted(n: int)
    ensures NormalLetter(IntKey(n)) in DriveLetters <==> 0 <= n <= 2
  {
    IntToDecimalSingle(n);
    if 0 <= n < 10 {
      assert Upper([DigitChar(n)]) == [DigitChar(n)];
      assert "0123456789"[n] == DigitChar(n);
    }
  }

  /** `check_drives` accepts exactly when every letter and every type is valid. */
  lemma {:induction false} DrivesAccepted(v: seq<(DriveKey, string)>)
    ensures ValidatedDrives(Empty(), v).Ok? <==>
      forall i :: 0 <= i < |v| ==> NormalLetter(v[i].0) in DriveLetters && Upper(v[i].1) in DriveParams
  {
    DrivesCharacterized(Empty(), v);
    FirstErrorNone(DriveErrors(v));
    assert forall i :: 0 <= i < |v| ==> DriveErrors(v)[i] == DriveEntryError(v[i]);
  }

  /** The first bad entry decides the error: for it, a bad letter before a bad type. */
  lemma {:induction false} DrivesFirstError(v: seq<(DriveKey, string)>, i: nat)
    requires i < |v| && DriveEntryError(v[i]).Some?
    requires forall j :: 0 <= j < i ==> DriveEntryError(v[j]) == None
    ensures ValidatedDrives(Empty(), v).Err?
    ensures ValidatedDrives(Empty(), v).error == DriveEntryError(v[i]).value
  {
    DrivesCharacterized(Empty(), v);
    FirstErrorAt(DriveErrors(v), i);
  }

  /** A validated `drives` mapping: valid letters to drive types. */
  predicate DrivesValid(d: Dict<string, string>) {
    && d.Valid()
    && (forall k :: k in d.items ==> k in DriveLetters && d.items[k] in DriveParams)
  }

  /** The accepted mapping has only valid letters as keys and drive types as values. */
  lemma {:induction false} DrivesOutputValid(v: seq<(DriveKey, string)>)
    requires ValidatedDrives(Empty(), v).Ok?
    ensures DrivesValid(ValidatedDrives(Empty(), v).value)
  {
    DrivesAccepted(v);
    DrivesCharacterized(Empty(), v);
    var ps := NormalDrives(v);
    PutAllValid(Empty(), ps);
    forall k | k in PutAll(Empty(), ps).items
      ensures k in DriveLetters && PutAll(Empty(), ps).items[k] in DriveParams
    {
      PutAllFrom(Empty(), ps, k);
    }
  }

  /** Every entry's letter is a key of the result, and nothing else is. */
  lemma {:induction false} DrivesDomain(v: seq<(DriveKey, string)>, k: string)
    requires ValidatedDrives(Empty(), v).Ok?
    ensures k in ValidatedDrives(Empty(), v).value.items <==> exists i :: 0 <= i < |v| && NormalLetter(v[i].0) == k
  {
    DrivesAccepted(v);
    DrivesCharacterized(Empty(), v);
    var ps := NormalDrives(v);
    PutAllDomain(Empty(), ps, k);
    if exists i :: 0 <= i < |ps| && ps[i].0 == k {
      var i :| 0 <= i < |ps| && ps[i].0 == k;
      assert NormalLetter(v[i].0) == k;
    }
    if exists i :: 0 <= i < |v| && NormalLetter(v[i].0) == k {
      var i :| 0 <= i < |v| && NormalLetter(v[i].0) == k;
      assert ps[i].0 == k;
    }
  }

  /** Of two entries with the same letter (`a` and `A`, `0` and `"0"`), the later one wins. */
  lemma {:induction false} DrivesLastWins(v: seq<(DriveKey, string)>, i: nat)
    requires ValidatedDrives(Empty(), v).Ok?
    requires i < |v|
    requires forall j :: i < j < |v| ==> NormalLetter(v[j].0) != NormalLetter(v[i].0)
    ensures NormalLetter(v[i].0) in ValidatedDrives(Empty(), v).value.items
    ensures ValidatedDrives(Empty(), v).value.items[NormalLetter(v[i].0)] == Upper(v[i].1)
  {
    DrivesAccepted(v);
    DrivesCharacterized(Empty(), v);
    var ps := NormalDrives(v);
    assert forall j :: i < j < |v| ==> ps[j].0 != ps[i].0;
    PutAllLastWins(Empty(), ps, i);
  }

  /** Every valid letter and drive type is already upper case. */
  lemma {:induction false} ValidNamesUpper()
    ensures forall k :: k in DriveLetters ==> Upper(k) == k
    ensures forall t :: t in DriveParams ==> Upper(t) == t
  {
    forall k | k in DriveLetters ensures Upper(k) == k {
      UpperFixed(k);
    }
    forall t | t in DriveParams ensures Upper(t) == t {
      UpperFixed(t);
    }
  }

  // ---------------------------------------------------------------------------
  // check_formats

  /** The names one element of a `formats` list contributes. */
  function Names(x: FormatItem): seq<string> {
    match x
    case Group(ns) => ns
    case Single(n) => [n]
  }

  /** The flattened list `nv` that `check_formats` builds from one value. */
  function Flatten(v: seq<FormatItem>): seq<string> {
    if v == [] then [] else Names(v[0]) + Flatten(v[1..])
  }

  /** The number of names in all elements together. */
  function NameCount(v: seq<FormatItem>): nat {
    if v == [] then 0 else |Names(v[0])| + NameCount(v[1..])
  }

  /** Flattening two lists one after the other is flattening their concatenation. */
  lemma {:induction false} FlattenAppend(a: seq<FormatItem>, b: seq<FormatItem>)
    ensures Flatten(a + b) == Flatten(a) + Flatten(b)
    decreases |a|
  {
    if a == [] {
      assert a + b == b;
    } else {
      assert (a + b)[0] == a[0];
      assert (a + b)[1..] == a[1..] + b;
      FlattenAppend(a[1..], b);
    }
  }

  /** The flattened list is as long as all elements' names together. */
  lemma {:induction false} FlattenLength(v: seq<FormatItem>)
    ensures |Flatten(v)| == NameCount(v)
    decreases |v|
  {
    if v != [] {
      FlattenLength(v[1..]);
    }
  }

  /** Element `i`'s names sit, in their own order, right after those of the elements before it. */
  lemma {:induction false} FlattenPlaces(v: seq<FormatItem>, i: nat)
    requires i < |v|
    ensures NameCount(v[..i]) + |Names(v[i])| <= |Flatten(v)|
    ensures Flatten(v)[NameCount(v[..i])..NameCount(v[..i]) + |Names(v[i])|] == Names(v[i])
  {
    assert v == v[..i] + ([v[i]] + v[i + 1..]);
    FlattenAppend(v[..i], [v[i]] + v[i + 1..]);
    assert Flatten([v[i]] + v[i + 1..]) == Names(v[i]) + Flatten(v[i + 1..]) by {
      assert ([v[i]] + v[i + 1..])[1..] == v[i + 1..];
    }
    FlattenLength(v[..i]);
  }

  /** A name is in the flattened list exactly when some element contributes it. */
  lemma {:induction false} FlattenMembers(v: seq<FormatItem>, x: string)
    ensures x in Flatten(v) <==> exists i :: 0 <= i < |v| && x in Names(v[i])
    decreases |v|
  {
    if v != [] {
      FlattenMembers(v[1..], x);
      if exists i :: 0 <= i < |v| - 1 && x in Names(v[1..][i]) {
        var i :| 0 <= i < |v| - 1 && x in Names(v[1..][i]);
        assert x in Names(v[i + 1]);
      }
      if exists i :: 0 <= i < |v| && x in Names(v[i]) {
        var i :| 0 <= i < |v| && x in Names(v[i]);
        if i > 0 {
          assert x in Names(v[1..][i - 1]);
        }
      }
    }
  }

  /** The flattening loop: `nv.extend(x)` for a list, `nv.append(x)` for a name. */
  method FlattenFormats(v: seq<FormatItem>) returns (nv: seq<string>)
    ensures nv == Flatten(v)
  {
    nv := [];
    for i := 0 to |v|
      invariant nv == Flatten(v[..i])
    {
      match v[i] {
        case Group(ns) => nv := nv + ns;
        case Single(n) => nv := nv + [n];
      }
      assert v[..i + 1] == v[..i] + [v[i]];
      FlattenAppend(v[..i], [v[i]]);
      assert Flatten([v[i]]) == Names(v[i]) + Flatten([]);
    }
    assert v[..|v|] == v;
  }

  /** Each flattened name's verdict against the supported formats, in order. */
  function UnsupportedErrors(nv: seq<string>, supported: set<string>): seq<Option<ConfigError>> {
    seq(|nv|, i requires 0 <= i < |nv| => if nv[i] in supported then None else Some(FormatNotSupported(nv[i])))
  }

  /** What `check_formats` objects to in one entry: the drive type, then the first unsupported name. */
  function FormatEntryError(e: (string, seq<FormatItem>), supported: set<string>): Option<ConfigError> {
    if Upper(e.0) !in DriveParams then Some(BadDriveType)
    else FirstError(UnsupportedErrors(Flatten(e.1), supported))
  }

  /** The loop of `check_formats` over the remaining entries `v`, with the accepted ones in `acc`. */
  function ValidatedFormats(acc: Dict<string, seq<string>>, v: seq<(string, seq<FormatItem>)>, supported: set<string>)
    : Result<Dict<string, seq<string>>, ConfigError>
    decreases |v|
  {
    if v == [] then Ok(acc)
    else match FormatEntryError(v[0], supported)
      case Some(e) => Err(e)
      case None => ValidatedFormats(acc.Put(Upper(v[0].0), Flatten(v[0].1)), v[1..], supported)
  }

  /**
   * `FloppyReaderConfig.check_formats`; `supported` stands for the list that
   * `codec.get_all_formats` returns.
   */
  method CheckFormats(value: seq<(string, seq<FormatItem>)>, supported: set<string>)
    returns (r: Result<Dict<string, seq<string>>, ConfigError>)
    ensures r == ValidatedFormats(Empty(), value, supported)
  {
    var acc := Empty();
    assert value[0..] == value;
    for i := 0 to |value|
      invariant ValidatedFormats(acc, value[i..], supported) == ValidatedFormats(Empty(), value, supported)
    {
      var (k, v) := value[i];
      var nk := Upper(k);
      if nk !in DriveParams {
        return Err(BadDriveType);
      }
      var nv := FlattenFormats(v);
      for j := 0 to |nv|
        invariant forall l :: 0 <= l < j ==> nv[l] in supported
      {
        if nv[j] !in supported {
          FirstErrorAt(UnsupportedErrors(nv, supported), j);
          return Err(FormatNotSupported(nv[j]));
        }
      }
      FirstErrorNone(UnsupportedErrors(nv, supported));
      assert value[i..][1..] == value[i + 1..];
      acc := acc.Put(nk, nv);
    }
    return Ok(acc);
  }

  /** Each entry's verdict, in order. */
  function FormatErrors(v: seq<(string, seq<FormatItem>)>, supported: set<string>): seq<Option<ConfigError>> {
    seq(|v|, i requires 0 <= i < |v| => FormatEntryError(v[i], supported))
  }

  /** The entries as `check_formats` stores them: upper-cased type, flattened names. */
  function NormalFormats(v: seq<(string, seq<FormatItem>)>): seq<(string, seq<string>)> {
    seq(|v|, i requires 0 <= i < |v| => (Upper(v[i].0), Flatten(v[i].1)))
  }

  /**
   * `check_formats` read declaratively: the error of the first bad entry, or
   * else every normalised entry assigned into the dict in order.
   */
  lemma {:induction false} FormatsCharacterized(
    acc: Dict<string, seq<string>>, v: seq<(string, seq<FormatItem>)>, supported: set<string>)
    ensures ValidatedFormats(acc, v, supported) ==
      Verdict(FirstError(FormatErrors(v, supported)), PutAll(acc, NormalFormats(v)))
    decreases |v|
  {
    if v != [] {
      assert FormatErrors(v, supported)[1..] == FormatErrors(v[1..], supported);
      assert NormalFormats(v)[1..] == NormalFormats(v[1..]);
      FormatsCharacterized(acc.Put(Upper(v[0].0), Flatten(v[0].1)), v[1..], supported);
    }
  }

  /** An entry passes exactly when its type is known and all its names are supported. */
  lemma {:induction false} FormatEntryAccepted(e: (string, seq<FormatItem>), supported: set<string>)
    ensures FormatEntryError(e, supported) == None <==>
      Upper(e.0) in DriveParams && forall x :: x in Flatten(e.1) ==> x in supported
  {
    var nv := Flatten(e.1);
    var errs := UnsupportedErrors(nv, supported);
    FirstErrorNone(errs);
    assert forall l :: 0 <= l < |nv| ==> (errs[l] == None <==> nv[l] in supported);
    if forall l :: 0 <= l < |nv| ==> nv[l] in supported {
      forall x | x in nv ensures x in supported {
        var l :| 0 <= l < |nv| && nv[l] == x;
      }
    }
    if forall x :: x in nv ==> x in supported {
      forall l | 0 <= l < |nv| ensures nv[l] in supported {
        assert nv[l] in nv;
      }
    }
  }

  /** `check_formats` accepts exactly when every type is known and every name supported. */
  lemma {:induction false} FormatsAccepted(v: seq<(string, seq<FormatItem>)>, supported: set<string>)
    ensures ValidatedFormats(Empty(), v, supported).Ok? <==>
      forall i :: 0 <= i < |v| ==>
        Upper(v[i].0) in DriveParams && forall x :: x in Flatten(v[i].1) ==> x in supported
  {
    FormatsCharacterized(Empty(), v, supported);
    var errs := FormatErrors(v, supported);
    FirstErrorNone(errs);
    forall i | 0 <= i < |v|
      ensures errs[i] == None <==>
        Upper(v[i].0) in DriveParams && forall x :: x in Flatten(v[i].1) ==> x in supported
    {
      FormatEntryAccepted(v[i], supported);
    }
  }

  /** The first bad entry decides the error; within it, the first unsupported name. */
  lemma {:induction false} FormatsFirstError(v: seq<(string, seq<FormatItem>)>, supported: set<string>, i: nat)
    requires i < |v| && FormatEntryError(v[i], supported).Some?
    requires forall j :: 0 <= j < i ==> FormatEntryError(v[j], supported) == None
    ensures ValidatedFormats(Empty(), v, supported).Err?
    ensures ValidatedFormats(Empty(), v, supported).error == FormatEntryError(v[i], supported).value
  {
    FormatsCharacterized(Empty(), v, supported);
    FirstErrorAt(FormatErrors(v, supported), i);
  }

  /** A validated `formats` mapping: drive types to lists of supported formats. */
  predicate FormatsValid(d: Dict<string, seq<string>>, supported: set<string>) {
    && d.Valid()
    && (forall k :: k in d.items ==> k in DriveParams && forall x :: x in d.items[k] ==> x in supported)
  }

  /** The accepted mapping has drive types as keys and only supported formats in its lists. */
  lemma {:induction false} FormatsOutputValid(v: seq<(string, seq<FormatItem>)>, supported: set<string>)
    requires ValidatedFormats(Empty(), v, supported).Ok?
    ensures FormatsValid(ValidatedFormats(Empty(), v, supported).value, supported)
  {
    FormatsAccepted(v, supported);
    FormatsCharacterized(Empty(), v, supported);
    var ps := NormalFormats(v);
    PutAllValid(Empty(), ps);
    forall k | k in PutAll(Empty(), ps).items
      ensures k in DriveParams && forall x :: x in PutAll(Empty(), ps).items[k] ==> x in supported
    {
      PutAllFrom(Empty(), ps, k);
    }
  }

  /** Of two entries with the same type (`3.5hd` and `3.5HD`), the later one wins. */
  lemma {:induction false} FormatsLastWins(v: seq<(string, seq<FormatItem>)>, supported: set<string>, i: nat)
    requires ValidatedFormats(Empty(), v, supported).Ok?
    requires i < |v|
    requires forall j :: i < j < |v| ==> Upper(v[j].0) != Upper(v[i].0)
    ensures Upper(v[i].0) in ValidatedFormats(Empty(), v, supported).value.items
    ensures ValidatedFormats(Empty(), v, supported).value.items[Upper(v[i].0)] == Flatten(v[i].1)
  {
    FormatsAccepted(v, supported);
    FormatsCharacterized(Empty(), v, supported);
    var ps := NormalFormats(v);
    assert forall j :: i < j < |v| ==> ps[j].0 != ps[i].0;
    PutAllLastWins(Empty(), ps, i);
  }

  // ---------------------------------------------------------------------------
  // Re-validating a validated configuration

  /** A validated `drives` mapping written back as configuration entries. */
  function DriveEntries(d: Dict<string, string>): seq<(DriveKey, string)>
    requires d.Valid()
  {
    seq(|d.keys|, i requires 0 <= i < |d.keys| => (StrKey(d.keys[i]), d.items[d.keys[i]]))
  }

  /** `check_drives` accepts its own output unchanged. */
  lemma {:induction false} DrivesIdempotent(v: seq<(DriveKey, string)>)
    requires ValidatedDrives(Empty(), v).Ok?
    ensures var d := ValidatedDrives(Empty(), v).value;
      d.Valid() && ValidatedDrives(Empty(), DriveEntries(d)) == Ok(d)
  {
    DrivesOutputValid(v);
    var d := ValidatedDrives(Empty(), v).value;
    var w := DriveEntries(d);
    ValidNamesUpper();
    forall i | 0 <= i < |w| ensures DriveEntryError(w[i]) == None && (NormalLetter(w[i].0), Upper(w[i].1)) == d.Pairs()[i] {
      assert d.keys[i] in d.items;
    }
    DrivesAccepted(w);
    DrivesCharacterized(Empty(), w);
    FirstErrorNone(DriveErrors(w));
    assert NormalDrives(w) == d.Pairs();
    PutAllReplay(d);
  }

  /** A validated `formats` mapping written back as configuration entries, one nested list each. */
  function FormatEntries(d: Dict<string, seq<string>>): seq<(string, seq<FormatItem>)>
    requires d.Valid()
  {
    seq(|d.keys|, i requires 0 <= i < |d.keys| => (d.keys[i], [Group(d.items[d.keys[i]])]))
  }

  /** `check_formats` accepts its own output unchanged. */
  lemma {:induction false} FormatsIdempotent(v: seq<(string, seq<FormatItem>)>, supported: set<string>)
    requires ValidatedFormats(Empty(), v, supported).Ok?
    ensures var d := ValidatedFormats(Empty(), v, supported).value;
      d.Valid() && ValidatedFormats(Empty(), FormatEntries(d), supported) == Ok(d)
  {
    FormatsOutputValid(v, supported);
    var d := ValidatedFormats(Empty(), v, supported).value;
    var w := FormatEntries(d);
    ValidNamesUpper();
    forall i | 0 <= i < |w|
      ensures FormatEntryError(w[i], supported) == None
      ensures (Upper(w[i].0), Flatten(w[i].1)) == d.Pairs()[i]
    {
      assert d.keys[i] in d.items;
      assert w[i] == (d.keys[i], [Group(d.items[d.keys[i]])]);
      assert d.keys[i] in DriveParams;
      assert Upper(w[i].0) == d.keys[i];
      assert w[i].1[1..] == [];
      assert Flatten(w[i].1) == d.items[d.keys[i]] + Flatten([]);
      assert Flatten(w[i].1) == d.items[d.keys[i]];
      assert d.Pairs()[i] == (d.keys[i], d.items[d.keys[i]]);
      FormatEntryAccepted(w[i], supported);
    }
    FormatsCharacterized(Empty(), w, supported);
    FirstErrorNone(FormatErrors(w, supported));
    assert NormalFormats(w) == d.Pairs();
    PutAllReplay(d);
  }

  // ---------------------------------------------------------------------------
  // Loading the whole configuration

  /** The parsed YAML document, before validation (the `port` field is not modelled). */
  datatype RawConfig = RawConfig(drives: seq<(DriveKey, string)>, formats: seq<(string, seq<FormatItem>)>)

  /** A validated FloppyReaderConfig. */
  datatype Config = Config(drives: Dict<string, string>, formats: Dict<string, seq<string>>)

  /** The errors one validator contributes to the ValidationError. */
  function ErrorsOf<T>(r: Result<T, ConfigError>): seq<ConfigError> {
    if r.Err? then [r.error] else []
  }

  /**
   * `FloppyReaderConfig(**yaml.safe_load(f))`: both field validators run, and
   * the model is built only if neither objects; otherwise each validator's
   * first objection is reported, those about `drives` (inside `greaseweazle`)
   * first.
   */
  method LoadConfig(raw: RawConfig, supported: set<string>) returns (r: Result<Config, seq<ConfigError>>)
    ensures r.Ok? <==> ValidatedDrives(Empty(), raw.drives).Ok? && ValidatedFormats(Empty(), raw.formats, supported).Ok?
    ensures r.Ok? ==> r.value.drives == ValidatedDrives(Empty(), raw.drives).value
    ensures r.Ok? ==> r.value.formats == ValidatedFormats(Empty(), raw.formats, supported).value
    ensures r.Ok? ==> DrivesValid(r.value.drives) && FormatsValid(r.value.formats, supported)
    ensures r.Err? ==> r.error != []
    ensures r.Err? ==> r.error == ErrorsOf(ValidatedDrives(Empty(), raw.drives)) + ErrorsOf(ValidatedFormats(Empty(), raw.formats, supported))
  {
    var drives := CheckDrives(raw.drives);
    var formats := CheckFormats(raw.formats, supported);
    if drives.Ok? && formats.Ok? {
      DrivesOutputValid(raw.drives);
      FormatsOutputValid(raw.formats, supported);
      r := Ok(Config(drives.value, formats.value));
    } else {
      r := Err(ErrorsOf(drives) + ErrorsOf(formats));
    }
  }
}
