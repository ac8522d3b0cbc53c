/**
 The stored rows of one use and the in-process copy of what they resolve to: set_setting and
 delete_setting of app/common/app_settings.py, resolve of app/common/llm_config.py and
 _apply_update of app/common/settings_router.py.
 */
module ModelSettings {
  import opened Common
  import opened ModelSpecs
  import opened ModelChains

  const CACHE_TTL: real := 30.0

  /** A field of an update: left out, reset to the default, or given. */
  datatype Field<+T> = Omitted | Reset | Given(value: T)
  datatype Payload = Payload(primary: Field<string>, backups: Field<seq<string>>)

  datatype UpdateError = BadPrimary(error: SpecError) | BadBackups(problem: BackupError) | NotOffered(spec: string)

  /** The chain an update was checked against; no backups means no stored list once it is done. */
  datatype Change = Change(primary: string, backups: Option<seq<string>>)

  function NewPrimary(c: Config, current: Resolved, f: Field<string>): Result<string, UpdateError> {
    match f
    case Omitted => Ok(current.primary.value)
    case Reset => Ok(c.env.primary)
    case Given(v) =>
      match c.check(v)
      case Ok(spec) => Ok(spec)
      case Err(e) => Err(BadPrimary(e))
  }

  function Checked(c: Config, values: seq<string>, primary: string): Result<Option<seq<string>>, UpdateError> {
    match Validated(c.check, c.cap, values, primary)
    case Ok(out) => Ok(Some(out))
    case Err(e) => Err(BadBackups(e))
  }

  function NewBackups(c: Config, current: Resolved, f: Field<seq<string>>, primary: string)
      : Result<Option<seq<string>>, UpdateError> {
    match f
    case Given(values) => Checked(c, values, primary)
    case Reset => Ok(None)
    case Omitted => if current.backups.fromSettings then Checked(c, current.backups.values, primary) else Ok(None)
  }

  /** The first of the new models that the provider's list lacks; `offered` says yes to all when there is no list. */
  function FirstMissing(offered: string -> bool, specs: seq<string>): Option<string> {
    if specs == [] then None
    else if !offered(specs[0]) then Some(specs[0])
    else FirstMissing(offered, specs[1..])
  }

  function NewSpecs(payload: Payload, change: Change): seq<string> {
    (if payload.primary.Given? then [change.primary] else [])
    + (if payload.backups != Omitted && change.backups.Some? then change.backups.value else [])
  }

  /** The validated change, or why it is refused. */
  function Plan(c: Config, current: Resolved, payload: Payload, offered: string -> bool): Result<Change, UpdateError> {
    match NewPrimary(c, current, payload.primary)
    case Err(e) => Err(e)
    case Ok(primary) =>
      match NewBackups(c, current, payload.backups, primary)
      case Err(e) => Err(e)
      case Ok(backups) =>
        var change := Change(primary, backups);
        match FirstMissing(offered, NewSpecs(payload, change))
        case Some(spec) => Err(NotOffered(spec))
        case None => Ok(change)
  }

  lemma {:induction false} FirstMissingIs(offered: string -> bool, specs: seq<string>)
    ensures match FirstMissing(offered, specs)
            case None => forall spec :: spec in specs ==> offered(spec)
            case Some(spec) => spec in specs && !offered(spec) && (!offered(specs[0]) ==> spec == specs[0])
  {
    if specs == [] {
    } else {
      FirstMissingIs(offered, specs[1..]);
      assert specs == [specs[0]] + specs[1..];
    }
  }

  /** The update itself names the model: as its primary, or among its backups. */
  predicate Names(payload: Payload, change: Change, spec: string) {
    || (payload.primary.Given? && spec == change.primary)
    || (payload.backups.Given? && change.backups.Some? && spec in change.backups.value)
  }

  lemma NewSpecsAreNamed(payload: Payload, change: Change, spec: string)
    requires payload.backups == Reset ==> change.backups.None?
    ensures spec in NewSpecs(payload, change) <==> Names(payload, change, spec)
    ensures payload.primary.Given? ==>
              NewSpecs(payload, change) != [] && NewSpecs(payload, change)[0] == change.primary
  {
  }

  /** The list that an update asks for, or leaves stored, is one that is accepted with the asked-for primary. */
  ghost predicate AsksForBackups(c: Config, current: Resolved, f: Field<seq<string>>, change: Change) {
    match f
    case Reset => change.backups.None?
    case Given(values) => change.backups.Some? && AcceptedAs(c, values, change.primary, change.backups.value)
    case Omitted =>
      if current.backups.fromSettings
      then change.backups.Some? && AcceptedAs(c, current.backups.values, change.primary, change.backups.value)
      else change.backups.None?
  }

  /** Which change an update is planned as: the primary it names, if valid, with the backups it names, if accepted. */
  lemma PlannedAsAsked(c: Config, current: Resolved, payload: Payload, change: Change)
    ensures Plan(c, current, payload, Everything()) == Ok(change) <==>
              && (match payload.primary
                  case Omitted => change.primary == current.primary.value
                  case Reset => change.primary == c.env.primary
                  case Given(v) => c.check(v) == Ok(change.primary))
              && AsksForBackups(c, current, payload.backups, change)
  {
    forall specs
      ensures FirstMissing(Everything(), specs) == None
    {
      AllOffered(specs);
    }
    forall values, out
      ensures AcceptedAs(c, values, change.primary, out) <==>
                Validated(c.check, c.cap, values, change.primary) == Ok(out)
    {
      AcceptedIff(c.check, c.cap, values, change.primary, out);
    }
  }

  /**
   The provider's list is a guard against retired and mistyped models in what the update names,
   and changes nothing else about it: an update that would be accepted without a list is refused
   with one exactly when it names a model that is not on it, and the refusal names such a model,
   the primary first.
   */
  lemma OnlyNamedModelsAreLookedUp(c: Config, current: Resolved, payload: Payload, offered: string -> bool)
    ensures var free, plan := Plan(c, current, payload, Everything()), Plan(c, current, payload, offered);
            && (free.Err? ==> plan == free)
            && (free.Ok? ==>
                  && (plan == free <==> forall spec :: Names(payload, free.value, spec) ==> offered(spec))
                  && (plan != free ==>
                        && plan.Err? && plan.error.NotOffered?
                        && Names(payload, free.value, plan.error.spec) && !offered(plan.error.spec)
                        && (payload.primary.Given? && !offered(free.value.primary) ==>
                              plan.error.spec == free.value.primary)))
  {
    var free := Plan(c, current, payload, Everything());
    if free.Ok? {
      var specs := NewSpecs(payload, free.value);
      AllOffered(specs);
      FirstMissingIs(offered, specs);
      forall spec
        ensures spec in specs <==> Names(payload, free.value, spec)
      {
        NewSpecsAreNamed(payload, free.value, spec);
      }
      NewSpecsAreNamed(payload, free.value, free.value.primary);
    } else {
      RefusedAnyway(c, current, payload, offered);
    }
  }

  lemma RefusedAnyway(c: Config, current: Resolved, payload: Payload, offered: string -> bool)
    requires Plan(c, current, payload, Everything()).Err?
    ensures Plan(c, current, payload, offered) == Plan(c, current, payload, Everything())
  {
    var primary := NewPrimary(c, current, payload.primary);
    if primary.Ok? {
      var backups := NewBackups(c, current, payload.backups, primary.value);
      if backups.Ok? {
        AllOffered(NewSpecs(payload, Change(primary.value, backups.value)));
      }
    }
  }

  /** The rows once the primary is written, which is the first of two commits. */
  function WithPrimary(rows: Rows, f: Field<string>, change: Change): Rows {
    match f
    case Omitted => rows
    case Reset => rows.(primary := None)
    case Given(_) => rows.(primary := Some(change.primary))
  }

  function WithBackups(rows: Rows, f: Field<seq<string>>, change: Change): Rows {
    if f == Omitted then rows
    else match change.backups
      case None => rows.(backups := None)
      case Some(values) => rows.(backups := Some(Listed(values)))
  }

  function After(rows: Rows, payload: Payload, change: Change): Rows {
    WithBackups(WithPrimary(rows, payload.primary, change), payload.backups, change)
  }

  // --- Error-free configurations stay error-free ---------------------------------------------------

  predicate ErrorFree(c: Config, rows: Rows) {
    Resolve(c, rows).primary.error.None? && Resolve(c, rows).backups.error.None?
  }

  /** What takes effect once the change is stored. */
  function Effect(c: Config, change: Change): seq<string> {
    match change.backups
    case Some(values) => values
    case None => EnvBackups(c, change.primary)
  }

  const NO_ROWS := Rows(None, None)

  /** The primary in effect once the primary's commit is made. */
  function PrimaryAfter(c: Config, rows: Rows, payload: Payload, change: Change): string {
    PrimaryOf(c, WithPrimary(rows, payload.primary, change).primary).value
  }

  /** A stored list as the specs it stands for, when it is in order. */
  function StoredBackups(c: Config, rows: Rows): Option<seq<string>> {
    if rows.backups.None? then None else Some(Resolve(c, rows).backups.values)
  }

  /** The same of the list that an update leaves stored: its own, or the one it did not mention. */
  function BackupsAfter(c: Config, rows: Rows, payload: Payload, change: Change): Option<seq<string>> {
    if payload.backups == Omitted then StoredBackups(c, rows) else change.backups
  }

  lemma PrimaryIsInOrder(c: Config, rows: Rows, current: Resolved, f: Field<string>, change: Change)
    requires EnvIsValid(c) && NewPrimary(c, current, f) == Ok(change.primary)
    requires f == Omitted ==> Resolve(c, rows).primary.error.None?
    ensures var slot := PrimaryOf(c, WithPrimary(rows, f, change).primary);
            slot.error.None? && (f != Omitted ==> slot.value == change.primary)
  {
  }

  lemma GivenBackupsUnder(c: Config, values: seq<string>, out: seq<string>, primary: string, other: string)
    requires EnvIsValid(c) && Validated(c.check, c.cap, values, primary) == Ok(out)
    ensures BackupsOf(c, Some(Listed(out)), other).error.None? <==> other !in out
    ensures other !in out ==> BackupsOf(c, Some(Listed(out)), other) == Backups(out, true, None)
  {
    AcceptedAreBackups(c.check, c.cap, values, primary, out);
    UnchangedIffBackups(c.check, c.cap, out, primary);
    ValidUnderAnotherPrimary(c.check, c.cap, out, primary, out, other);
  }

  lemma StoredBackupsUnder(c: Config, rows: Rows, other: string)
    requires EnvIsValid(c) && ErrorFree(c, rows) && rows.backups.Some?
    ensures var out := Resolve(c, rows).backups.values;
            && (BackupsOf(c, rows.backups, other).error.None? <==> other !in out)
            && (other !in out ==> BackupsOf(c, rows.backups, other) == Backups(out, true, None))
  {
    var previous, out := Resolve(c, rows).primary.value, Resolve(c, rows).backups.values;
    ValidUnderAnotherPrimary(c.check, c.cap, rows.backups.value.values, previous, out, other);
  }

  /**
   What a finished update of an error-free configuration leaves, whatever chain `current` it was
   planned on: the copy of a failed read and that of older rows included. It is error-free
   exactly when the list that is then stored does not hold the primary that is then in effect.
   */
  lemma FinishedUpdateIsErrorFreeIff(c: Config, rows: Rows, current: Resolved, payload: Payload,
      offered: string -> bool)
    requires EnvIsValid(c) && ErrorFree(c, rows) && Plan(c, current, payload, offered).Ok?
    ensures var change := Plan(c, current, payload, offered).value;
            var stored := BackupsAfter(c, rows, payload, change);
            ErrorFree(c, After(rows, payload, change)) <==>
              stored.None? || PrimaryAfter(c, rows, payload, change) !in stored.value
  {
    var change := Plan(c, current, payload, offered).value;
    var primary := PrimaryAfter(c, rows, payload, change);
    PrimaryIsInOrder(c, rows, current, payload.primary, change);
    match payload.backups {
      case Given(values) =>
        GivenBackupsUnder(c, values, change.backups.value, change.primary, primary);
      case Reset =>
      case Omitted =>
        if rows.backups.Some? {
          StoredBackupsUnder(c, rows, primary);
        }
    }
  }

  /** Between the two commits it is the old list that meets the new primary. */
  lemma HalfAppliedIsErrorFreeIff(c: Config, rows: Rows, current: Resolved, payload: Payload, offered: string -> bool)
    requires EnvIsValid(c) && ErrorFree(c, rows) && Plan(c, current, payload, offered).Ok?
    ensures var change := Plan(c, current, payload, offered).value;
            var stored := StoredBackups(c, rows);
            ErrorFree(c, WithPrimary(rows, payload.primary, change)) <==>
              stored.None? || PrimaryAfter(c, rows, payload, change) !in stored.value
  {
    var change := Plan(c, current, payload, offered).value;
    PrimaryIsInOrder(c, rows, current, payload.primary, change);
    if rows.backups.Some? {
      StoredBackupsUnder(c, rows, PrimaryAfter(c, rows, payload, change));
    }
  }

  /** What an update leaves out, the chain it was planned on has as the rows have it. */
  predicate AgreesWhereOmitted(c: Config, rows: Rows, current: Resolved, payload: Payload) {
    && (payload.primary == Omitted ==> current.primary.value == Resolve(c, rows).primary.value)
    && (payload.backups == Omitted ==>
          && (current.backups.fromSettings <==> rows.backups.Some?)
          && (rows.backups.Some? ==> current.backups.values == Resolve(c, rows).backups.values))
  }

  /**
   An update takes effect, free of errors and as the very chain it validated, when its copy is
   right about the fields it leaves out: so when the copy is true, and when it names both.
   */
  lemma UpdateTakesEffect(c: Config, rows: Rows, current: Resolved, payload: Payload, offered: string -> bool)
    requires EnvIsValid(c) && Plan(c, current, payload, offered).Ok?
    requires payload.primary == Omitted || payload.backups == Omitted ==> ErrorFree(c, rows)
    requires AgreesWhereOmitted(c, rows, current, payload)
    ensures var change := Plan(c, current, payload, offered).value;
            var after := After(rows, payload, change);
            && ErrorFree(c, after)
            && Resolve(c, after).primary.value == change.primary
            && Resolve(c, after).backups.values == Effect(c, change)
  {
    var change := Plan(c, current, payload, offered).value;
    PrimaryIsInOrder(c, rows, current, payload.primary, change);
    match payload.backups {
      case Given(values) =>
        KeepsClearOf(c, values, change.primary);
        GivenBackupsUnder(c, values, change.backups.value, change.primary, change.primary);
      case Reset =>
      case Omitted =>
        if rows.backups.Some? {
          KeepsClearOf(c, current.backups.values, change.primary);
          KeptListIsTheStoredOne(c, rows, change.backups.value, change.primary);
          StoredBackupsUnder(c, rows, change.primary);
        }
    }
  }

  /** An update planned on the rows themselves takes effect. */
  lemma UpdateOfATrueCopyTakesEffect(c: Config, rows: Rows, payload: Payload, offered: string -> bool)
    requires EnvIsValid(c) && ErrorFree(c, rows) && Plan(c, Resolve(c, rows), payload, offered).Ok?
    ensures var change := Plan(c, Resolve(c, rows), payload, offered).value;
            var after := After(rows, payload, change);
            && ErrorFree(c, after)
            && Resolve(c, after).primary.value == change.primary
            && Resolve(c, after).backups.values == Effect(c, change)
  {
    UpdateTakesEffect(c, rows, Resolve(c, rows), payload, offered);
  }

  lemma KeepsClearOf(c: Config, values: seq<string>, primary: string)
    requires Validated(c.check, c.cap, values, primary).Ok?
    ensures primary !in Validated(c.check, c.cap, values, primary).value
  {
    AcceptedIff(c.check, c.cap, values, primary, Validated(c.check, c.cap, values, primary).value);
  }

  /** Validating the specs of a stored list again gives the same specs. */
  lemma KeptListIsTheStoredOne(c: Config, rows: Rows, out: seq<string>, primary: string)
    requires EnvIsValid(c) && ErrorFree(c, rows) && rows.backups.Some?
    requires Validated(c.check, c.cap, Resolve(c, rows).backups.values, primary) == Ok(out)
    ensures out == Resolve(c, rows).backups.values
  {
    var previous, current := Resolve(c, rows).primary.value, Resolve(c, rows).backups.values;
    AcceptedAreBackups(c.check, c.cap, rows.backups.value.values, previous, current);
    UnchangedIffBackups(c.check, c.cap, current, previous);
    ValidUnderAnotherPrimary(c.check, c.cap, current, previous, current, primary);
  }

  /**
   While the copy of a failed read is in force, making the only stored backup the primary is
   accepted, and leaves that list rejected.
   */
  lemma AFailedReadLetsAnErrorIn(c: Config, b: string)
    requires EnvIsValid(c) && c.check(b) == Ok(b) && b != c.env.primary && WithinCap(c.cap, 1)
    ensures var rows, payload := Rows(None, Some(Listed([b]))), Payload(Given(b), Omitted);
            var plan := Plan(c, Resolve(c, NO_ROWS), payload, Everything());
            && ErrorFree(c, rows) && plan == Ok(Change(b, None))
            && Resolve(c, After(rows, payload, plan.value)).backups.error == Some(BadList(IsPrimary(0)))
  {
    SingleBackup(c, b, c.env.primary);
    assert ValidatedUpTo(c.check, [b], b, 0) == Ok([]);
    AllOffered(NewSpecs(Payload(Given(b), Omitted), Change(b, None)));
  }

  /** Swapping the primary with its only backup, cut off after the first commit, leaves the stored list rejected. */
  lemma InterruptedSwapIsInError(c: Config, a: string, b: string)
    requires EnvIsValid(c) && c.check(a) == Ok(a) && c.check(b) == Ok(b) && a != b && WithinCap(c.cap, 1)
    ensures var rows := Rows(Some(a), Some(Listed([b])));
            var payload := Payload(Given(b), Given([a]));
            var plan := Plan(c, Resolve(c, rows), payload, Everything());
            && ErrorFree(c, rows) && plan == Ok(Change(b, Some([a])))
            && Resolve(c, WithPrimary(rows, payload.primary, plan.value)).backups.error == Some(BadList(IsPrimary(0)))
  {
    var rows := Rows(Some(a), Some(Listed([b])));
    SingleBackup(c, b, a);
    SingleBackup(c, a, b);
    assert ValidatedUpTo(c.check, [b], b, 0) == Ok([]);
    AllOffered(NewSpecs(Payload(Given(b), Given([a])), Change(b, Some([a]))));
  }

  lemma SingleBackup(c: Config, x: string, primary: string)
    requires c.check(x) == Ok(x) && x != primary && WithinCap(c.cap, 1)
    ensures Validated(c.check, c.cap, [x], primary) == Ok([x])
  {
    UnchangedIffBackups(c.check, c.cap, [x], primary);
  }

  function Everything(): string -> bool {
    (s: string) => true
  }

  lemma {:induction false} AllOffered(specs: seq<string>)
    ensures FirstMissing(Everything(), specs) == None
  {
    if specs == [] {
    } else {
      AllOffered(specs[1..]);
    }
  }

  // --- The in-process copy -----------------------------------------------------------------------------

  /** `failed` marks a copy made from no rows because the read failed. */
  datatype Cached = Cached(time: real, generation: nat, value: Resolved, failed: bool)

  class Settings {
    const config: Config
    var rows: Rows
    var generation: nat
    var cache: Option<Cached>

    constructor (config: Config, rows: Rows)
      ensures this.config == config && this.rows == rows && generation == 0 && cache == None && Valid()
    {
      this.config, this.rows, generation, cache := config, rows, 0, None;
    }

    /** A copy made at this generation is what the rows resolve to, or no rows when the read failed. */
    ghost predicate Valid()
      reads this
    {
      cache.Some? ==>
        && cache.value.generation <= generation
        && (cache.value.failed ==> cache.value.value == Resolve(config, NO_ROWS))
        && (cache.value.generation == generation && !cache.value.failed ==> cache.value.value == Resolve(config, rows))
    }

    predicate Hits(now: real)
      reads this
    {
      cache.Some? && cache.value.generation == generation && now - cache.value.time < CACHE_TTL
    }

    /**
     `readable` says whether the database answers. An answer that is not what the rows resolve to
     came from a failed read.
     */
    method ResolveModels(now: real, readable: bool) returns (r: Resolved)
      requires Valid()
      modifies this`cache
      ensures Valid() && cache.Some? && r == cache.value.value
      ensures cache.value.generation == generation && now - cache.value.time < 30.0
      ensures old(cache.Some? && cache.value.generation == generation && now - cache.value.time < 30.0) ==>
                cache == old(cache)
      ensures old(Hits(now)) ==> cache == old(cache)
      ensures !old(Hits(now)) ==>
              cache == Some(Cached(now, generation, Resolve(config, if readable then rows else NO_ROWS), !readable))
      ensures r == Resolve(config, if cache.value.failed then NO_ROWS else rows)
    {
      if Hits(now) {
        return cache.value.value;
      }
      var read := if readable then rows else NO_ROWS;
      r := Resolve(config, read);
      cache := Some(Cached(now, generation, r, !readable));
    }

    method SetPrimary(value: string)
      requires Valid()
      modifies this`rows, this`generation
      ensures Valid() && rows == old(rows).(primary := Some(value)) && generation == old(generation) + 1
    {
      rows := rows.(primary := Some(value));
      generation := generation + 1;
    }

    /** Deleting a row that is not there bumps the generation too. */
    method DeletePrimary()
      requires Valid()
      modifies this`rows, this`generation
      ensures Valid() && rows == old(rows).(primary := None) && generation == old(generation) + 1
    {
      if rows.primary.Some? {
        rows := rows.(primary := None);
      }
      generation := generation + 1;
    }

    method SetBackups(values: seq<string>)
      requires Valid()
      modifies this`rows, this`generation
      ensures Valid() && rows == old(rows).(backups := Some(Listed(values))) && generation == old(generation) + 1
    {
      rows := rows.(backups := Some(Listed(values)));
      generation := generation + 1;
    }

    method DeleteBackups()
      requires Valid()
      modifies this`rows, this`generation
      ensures Valid() && rows == old(rows).(backups := None) && generation == old(generation) + 1
    {
      if rows.backups.Some? {
        rows := rows.(backups := None);
      }
      generation := generation + 1;
    }

    /** Validates the whole change against the chain it produces. */
    method Validate(chain: Resolved, payload: Payload, offered: string -> bool)
      returns (result: Result<Change, UpdateError>)
      ensures result == Plan(config, chain, payload, offered)
    {
      var primary := chain.primary.value;
      if payload.primary == Reset {
        primary := config.env.primary;
      } else if payload.primary.Given? {
        var spec := config.check(payload.primary.value);
        if spec.Err? {
          return Err(BadPrimary(spec.error));
        }
        primary := spec.value;
      }
      var backups: Option<seq<string>> := None;
      if payload.backups.Given? || (payload.backups == Omitted && chain.backups.fromSettings) {
        var values := if payload.backups.Given? then payload.backups.value else chain.backups.values;
        var checked := ValidateBackups(config.check, config.cap, values, primary);
        if checked.Err? {
          return Err(BadBackups(checked.error));
        }
        backups := Some(checked.value);
      }
      var change := Change(primary, backups);
      var missing := FirstMissing(offered, NewSpecs(payload, change));
      result := if missing.Some? then Err(NotOffered(missing.value)) else Ok(change);
    }

    /** Writes a validated change, in two commits. */
    method Write(payload: Payload, change: Change)
      requires Valid()
      modifies this`rows, this`generation
      ensures Valid() && rows == After(old(rows), payload, change)
      ensures generation == old(generation) + (if payload.primary == Omitted then 0 else 1)
                                            + (if payload.backups == Omitted then 0 else 1)
    {
      if payload.primary == Reset {
        DeletePrimary();
      } else if payload.primary.Given? {
        SetPrimary(change.primary);
      }
      if payload.backups != Omitted {
        if change.backups.None? {
          DeleteBackups();
        } else {
          SetBackups(change.backups.value);
        }
      }
    }

    /** Validates against the chain in effect, and only then writes. */
    method ApplyUpdate(payload: Payload, offered: string -> bool, now: real, readable: bool)
      returns (result: Result<Change, UpdateError>, ghost current: Resolved)
      requires Valid()
      modifies this
      ensures Valid() && result == Plan(config, current, payload, offered)
      ensures cache.Some? && current == Resolve(config, if cache.value.failed then NO_ROWS else old(rows))
      ensures old(Hits(now)) ==> cache == old(cache)
      ensures !old(Hits(now)) ==> (cache.value.failed <==> !readable)
      ensures result.Err? ==> rows == old(rows) && generation == old(generation)
      ensures result.Ok? ==> rows == After(old(rows), payload, result.value)
      ensures result.Ok? && payload != Payload(Omitted, Omitted) ==> generation > old(generation)
    {
      var chain := ResolveModels(now, readable);
      current := chain;
      result := Validate(chain, payload, offered);
      if result.Ok? {
        Write(payload, result.value);
      }
    }
  }
}
