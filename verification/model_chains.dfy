/**
 Which models a feature uses: validating a backup list, resolving the stored rows against the
 environment's defaults, and changing them. Everything here is about one use.
 */
module ModelChains {
  import opened Common
  import opened ModelSpecs

  type Check = string -> Result<string, SpecError>

  function Checker(use: Use): Check {
    (value: string) => ValidateSpec(use, value)
  }

  function CapOf(use: Use): Option<nat> {
    if use == Agent then Some(2) else None
  }

  /** What the check answers with, it accepts unchanged. */
  ghost predicate Stable(check: Check) {
    forall v :: check(v).Ok? ==> check(check(v).value) == check(v)
  }

  lemma CheckerIsStable(use: Use)
    ensures Stable(Checker(use))
  {
    forall v | Checker(use)(v).Ok?
      ensures Checker(use)(Checker(use)(v).value) == Checker(use)(v)
    {
      ValidateSpecIsIdempotent(use, v);
    }
  }

  // --- Backup lists ---------------------------------------------------------------------------------

  datatype BackupError = BadBackup(i: nat, error: SpecError) | IsPrimary(i: nat) | ListedTwice(i: nat) | TooMany(n: nat)

  function ValidatedUpTo(check: Check, values: seq<string>, primary: string, n: nat): Result<seq<string>, BackupError>
    requires n <= |values|
  {
    if n == 0 then Ok([])
    else
      match ValidatedUpTo(check, values, primary, n - 1)
      case Err(e) => Err(e)
      case Ok(out) =>
        match check(values[n - 1])
        case Err(e) => Err(BadBackup(n - 1, e))
        case Ok(spec) =>
          if spec == primary then Err(IsPrimary(n - 1))
          else if spec in out then Err(ListedTwice(n - 1))
          else Ok(out + [spec])
  }

  predicate WithinCap(cap: Option<nat>, n: nat) {
    cap.Some? ==> n <= cap.value
  }

  function Validated(check: Check, cap: Option<nat>, values: seq<string>, primary: string)
      : Result<seq<string>, BackupError> {
    match ValidatedUpTo(check, values, primary, |values|)
    case Err(e) => Err(e)
    case Ok(out) => if WithinCap(cap, |out|) then Ok(out) else Err(TooMany(|out|))
  }

  method ValidateBackups(check: Check, cap: Option<nat>, values: seq<string>, primary: string)
    returns (r: Result<seq<string>, BackupError>)
    ensures r == Validated(check, cap, values, primary)
  {
    var out: seq<string> := [];
    for i := 0 to |values|
      invariant ValidatedUpTo(check, values, primary, i) == Ok(out)
    {
      var spec := check(values[i]);
      if spec.Err? {
        FirstErrorStands(check, values, primary, i + 1, |values|);
        return Err(BadBackup(i, spec.error));
      }
      if spec.value == primary {
        FirstErrorStands(check, values, primary, i + 1, |values|);
        return Err(IsPrimary(i));
      }
      if spec.value in out {
        FirstErrorStands(check, values, primary, i + 1, |values|);
        return Err(ListedTwice(i));
      }
      out := out + [spec.value];
    }
    if !WithinCap(cap, |out|) {
      return Err(TooMany(|out|));
    }
    r := Ok(out);
  }

  lemma {:induction false} FirstErrorStands(check: Check, values: seq<string>, primary: string, i: nat, n: nat)
    requires i <= n <= |values| && ValidatedUpTo(check, values, primary, i).Err?
    ensures ValidatedUpTo(check, values, primary, n) == ValidatedUpTo(check, values, primary, i)
    decreases n
  {
    if i < n {
      FirstErrorStands(check, values, primary, i, n - 1);
    }
  }

  ghost predicate Distinct(s: seq<string>) {
    forall i, j :: 0 <= i < j < |s| ==> s[i] != s[j]
  }

  /** Valid as they stand, each once, and none of them the primary. */
  ghost predicate IsBackups(check: Check, cap: Option<nat>, backups: seq<string>, primary: string) {
    && (forall i :: 0 <= i < |backups| ==> check(backups[i]) == Ok(backups[i]) && backups[i] != primary)
    && Distinct(backups) && WithinCap(cap, |backups|)
  }

  /** The values pass one by one into `out`. */
  ghost predicate Passes(check: Check, values: seq<string>, out: seq<string>, n: nat) {
    n <= |values| && |out| == n && forall i :: 0 <= i < n ==> check(values[i]) == Ok(out[i])
  }

  ghost predicate Avoids(out: seq<string>, primary: string) {
    forall i :: 0 <= i < |out| ==> out[i] != primary
  }

  /** Exactly which lists are accepted, and as what. */
  lemma {:induction false} AcceptedUpToIff(check: Check, values: seq<string>, primary: string, n: nat, out: seq<string>)
    requires n <= |values|
    ensures ValidatedUpTo(check, values, primary, n) == Ok(out) <==>
              Passes(check, values, out, n) && Distinct(out) && Avoids(out, primary)
  {
    if n == 0 {
    } else {
      var before := ValidatedUpTo(check, values, primary, n - 1);
      if out != [] {
        var init, last := out[..|out| - 1], out[|out| - 1];
        AcceptedUpToIff(check, values, primary, n - 1, init);
        assert out == init + [last];
        LastIsNew(init, last);
      }
    }
  }

  lemma LastIsNew(init: seq<string>, last: string)
    ensures Distinct(init + [last]) <==> Distinct(init) && last !in init
  {
    var out := init + [last];
    if Distinct(out) {
      assert forall i :: 0 <= i < |init| ==> out[i] == init[i] && out[i] != out[|init|];
    }
  }

  /**
   A backup list is accepted exactly when each value passes, no two are one model, none is the
   primary and they fit the cap.
   */
  lemma AcceptedIff(check: Check, cap: Option<nat>, values: seq<string>, primary: string, out: seq<string>)
    ensures Validated(check, cap, values, primary) == Ok(out) <==>
              Passes(check, values, out, |values|) && Distinct(out) && Avoids(out, primary) && WithinCap(cap, |out|)
  {
    AcceptedUpToIff(check, values, primary, |values|, out);
  }

  /** Of the real uses only the agent's list has a cap, of two: a user waits for each of its models. */
  lemma OnlyTheAgentIsCapped(use: Use, values: seq<string>, primary: string, out: seq<string>)
    ensures Validated(Checker(use), CapOf(use), values, primary) == Ok(out) <==>
              && Passes(Checker(use), values, out, |values|) && Distinct(out) && Avoids(out, primary)
              && (use == Agent ==> |out| <= 2)
  {
    AcceptedIff(Checker(use), CapOf(use), values, primary, out);
  }

  /** The first n values break no rule: each is valid, is not the primary and is not an earlier one again. */
  ghost predicate InOrder(check: Check, values: seq<string>, primary: string, n: nat) {
    && n <= |values|
    && forall i :: 0 <= i < n ==>
         check(values[i]).Ok? && check(values[i]).value != primary && !Repeats(check, values, i)
  }

  /** The value stands for the same model as an earlier one. */
  ghost predicate Repeats(check: Check, values: seq<string>, i: nat)
    requires i < |values|
  {
    exists j :: 0 <= j < i && check(values[j]) == check(values[i])
  }

  lemma {:induction false} InOrderIff(check: Check, values: seq<string>, primary: string, n: nat)
    requires n <= |values|
    ensures InOrder(check, values, primary, n) <==> ValidatedUpTo(check, values, primary, n).Ok?
  {
    if n == 0 {
    } else {
      var m := n - 1;
      InOrderIff(check, values, primary, m);
      if ValidatedUpTo(check, values, primary, m).Ok? && check(values[m]).Ok? {
        RepeatsIff(check, values, primary, m);
      }
    }
  }

  lemma RepeatsIff(check: Check, values: seq<string>, primary: string, m: nat)
    requires m < |values| && ValidatedUpTo(check, values, primary, m).Ok? && check(values[m]).Ok?
    ensures Repeats(check, values, m) <==>
              check(values[m]).value in ValidatedUpTo(check, values, primary, m).value
  {
    var out := ValidatedUpTo(check, values, primary, m).value;
    AcceptedUpToIff(check, values, primary, m, out);
    assert forall j :: 0 <= j < m ==> check(values[j]) == Ok(out[j]);
  }

  /** The error names the first value that breaks a rule, and a rule it breaks. */
  ghost predicate NamesTheFirst(check: Check, values: seq<string>, primary: string, e: BackupError) {
    !e.TooMany? && e.i < |values| && InOrder(check, values, primary, e.i) &&
    match e
    case BadBackup(i, error) => check(values[i]) == Err(error)
    case IsPrimary(i) => check(values[i]) == Ok(primary)
    case ListedTwice(i) => check(values[i]).Ok? && check(values[i]).value != primary && Repeats(check, values, i)
    case TooMany(_) => false
  }

  lemma {:induction false} FirstBrokenUpTo(check: Check, values: seq<string>, primary: string, n: nat)
    requires n <= |values| && ValidatedUpTo(check, values, primary, n).Err?
    ensures NamesTheFirst(check, values, primary, ValidatedUpTo(check, values, primary, n).error)
  {
    var m := n - 1;
    if ValidatedUpTo(check, values, primary, m).Err? {
      FirstBrokenUpTo(check, values, primary, m);
    } else {
      InOrderIff(check, values, primary, m);
      if check(values[m]).Ok? {
        RepeatsIff(check, values, primary, m);
      }
    }
  }

  /** What a refusal names: the first value that breaks a rule and which rule it breaks, or the cap when none does. */
  lemma TheFirstBrokenRuleIsReported(check: Check, cap: Option<nat>, values: seq<string>, primary: string)
    requires Validated(check, cap, values, primary).Err?
    ensures var e := Validated(check, cap, values, primary).error;
            if e.TooMany? then
              InOrder(check, values, primary, |values|) && e.n == |values| && cap.Some? && e.n > cap.value
            else NamesTheFirst(check, values, primary, e)
  {
    if ValidatedUpTo(check, values, primary, |values|).Err? {
      FirstBrokenUpTo(check, values, primary, |values|);
    } else {
      InOrderIff(check, values, primary, |values|);
      AcceptedUpToIff(check, values, primary, |values|, ValidatedUpTo(check, values, primary, |values|).value);
    }
  }

  lemma AcceptedAreBackups(check: Check, cap: Option<nat>, values: seq<string>, primary: string, out: seq<string>)
    requires Stable(check) && Validated(check, cap, values, primary) == Ok(out)
    ensures IsBackups(check, cap, out, primary) && |out| == |values|
  {
    AcceptedIff(check, cap, values, primary, out);
    forall i | 0 <= i < |out|
      ensures check(out[i]) == Ok(out[i])
    {
      assert check(values[i]) == Ok(out[i]);
    }
  }

  /** Validation leaves exactly the proper backup lists as they are. */
  lemma UnchangedIffBackups(check: Check, cap: Option<nat>, backups: seq<string>, primary: string)
    ensures Validated(check, cap, backups, primary) == Ok(backups) <==> IsBackups(check, cap, backups, primary)
  {
    AcceptedIff(check, cap, backups, primary, backups);
  }

  /**
   Under another primary, a list that was valid is valid as the same backups exactly when that
   primary is not one of them.
   */
  lemma ValidUnderAnotherPrimary(check: Check, cap: Option<nat>, values: seq<string>, primary: string, out: seq<string>,
      other: string)
    requires Validated(check, cap, values, primary) == Ok(out)
    ensures Validated(check, cap, values, other) == Ok(out) <==> Avoids(out, other)
    ensures Validated(check, cap, values, other).Ok? <==> Avoids(out, other)
  {
    AcceptedIff(check, cap, values, primary, out);
    AcceptedIff(check, cap, values, other, out);
    if Validated(check, cap, values, other).Ok? {
      var out' := Validated(check, cap, values, other).value;
      AcceptedIff(check, cap, values, other, out');
      forall i | 0 <= i < |values|
        ensures out[i] == out'[i]
      {
        assert check(values[i]) == Ok(out[i]) == Ok(out'[i]);
      }
      assert out == out';
    }
  }

  // --- Resolving --------------------------------------------------------------------------------------

  /** A stored backup row: text that is no JSON list of strings, or the strings. */
  datatype StoredList = NotAList | Listed(values: seq<string>)

  datatype Rows = Rows(primary: Option<string>, backups: Option<StoredList>)
  datatype Env = Env(primary: string, backups: seq<string>)

  datatype Slot = Slot(value: string, fromSettings: bool, error: Option<SpecError>)
  datatype ListError = BadJson | BadList(error: BackupError)
  datatype Backups = Backups(values: seq<string>, fromSettings: bool, error: Option<ListError>)
  datatype Resolved = Resolved(primary: Slot, backups: Backups)

  datatype Config = Config(check: Check, cap: Option<nat>, env: Env)

  /** What the settings class checks at startup. */
  ghost predicate EnvIsValid(c: Config) {
    && Stable(c.check) && c.check(c.env.primary) == Ok(c.env.primary)
    && IsBackups(c.check, c.cap, c.env.backups, c.env.primary)
  }

  /** The configuration of a use once the settings class has stored what its two validators answered. */
  function Configured(use: Use, primary: string, backups: seq<string>): Config {
    Config(Checker(use), CapOf(use), Env(primary, SplitEnvList(Join(backups))))
  }

  /** A process that starts has a valid environment: the joined list is read back as the backups that were checked. */
  lemma StartupMakesEnvValid(use: Use, primaryText: string, backupsText: string, primary: string, backups: seq<string>)
    requires ValidateSpec(use, primaryText) == Ok(primary)
    requires Validated(Checker(use), CapOf(use), SplitEnvList(backupsText), primary) == Ok(backups)
    ensures EnvIsValid(Configured(use, primary, backups))
    ensures Configured(use, primary, backups).env.backups == backups
  {
    CheckerIsStable(use);
    ValidateSpecIsIdempotent(use, primaryText);
    AcceptedAreBackups(Checker(use), CapOf(use), SplitEnvList(backupsText), primary, backups);
    forall i | 0 <= i < |backups|
      ensures Normal(use, backups[i])
    {
      NormalIffUnchanged(use, backups[i]);
    }
    BackupsSurviveTheEnvironment(use, backups);
  }

  function PrimaryOf(c: Config, stored: Option<string>): Slot {
    match stored
    case None => Slot(c.env.primary, false, None)
    case Some(v) =>
      match c.check(v)
      case Ok(spec) => Slot(spec, true, None)
      case Err(e) => Slot(c.env.primary, false, Some(e))
  }

  function Without(values: seq<string>, primary: string, n: nat): seq<string>
    requires n <= |values|
  {
    if n == 0 then [] else Without(values, primary, n - 1) + if values[n - 1] != primary then [values[n - 1]] else []
  }

  /** The environment's backups, less the primary in effect. */
  function EnvBackups(c: Config, primary: string): seq<string> {
    Without(c.env.backups, primary, |c.env.backups|)
  }

  function ParseStored(c: Config, stored: StoredList, primary: string): Result<seq<string>, ListError> {
    match stored
    case NotAList => Err(BadJson)
    case Listed(values) =>
      match Validated(c.check, c.cap, values, primary)
      case Ok(out) => Ok(out)
      case Err(e) => Err(BadList(e))
  }

  function BackupsOf(c: Config, stored: Option<StoredList>, primary: string): Backups {
    match stored
    case None => Backups(EnvBackups(c, primary), false, None)
    case Some(list) =>
      match ParseStored(c, list, primary)
      case Ok(out) => Backups(out, true, None)
      case Err(e) => Backups(EnvBackups(c, primary), false, Some(e))
  }

  function Resolve(c: Config, rows: Rows): Resolved {
    var primary := PrimaryOf(c, rows.primary);
    Resolved(primary, BackupsOf(c, rows.backups, primary.value))
  }

  lemma {:induction false} WithoutIsASelection(values: seq<string>, primary: string, n: nat)
    requires n <= |values|
    ensures var out := Without(values, primary, n);
            && |out| <= n && Avoids(out, primary) && (forall i :: 0 <= i < |out| ==> out[i] in values[..n])
            && (Distinct(values) ==> Distinct(out))
  {
    if n == 0 {
    } else {
      WithoutIsASelection(values, primary, n - 1);
      assert values[..n] == values[..n - 1] + [values[n - 1]];
      if Distinct(values) && values[n - 1] != primary {
        LastIsNew(Without(values, primary, n - 1), values[n - 1]);
      }
    }
  }

  lemma EnvBackupsAreBackups(c: Config, primary: string)
    requires EnvIsValid(c)
    ensures IsBackups(c.check, c.cap, EnvBackups(c, primary), primary)
  {
    var all, out := c.env.backups, EnvBackups(c, primary);
    WithoutIsASelection(all, primary, |all|);
    assert all[..|all|] == all;
    forall i | 0 <= i < |out|
      ensures c.check(out[i]) == Ok(out[i])
    {
      assert out[i] in all;
    }
  }

  ghost predicate IsChain(c: Config, primary: string, backups: seq<string>) {
    c.check(primary) == Ok(primary) && IsBackups(c.check, c.cap, backups, primary)
  }

  /** Whatever rows are stored, what is in effect is a valid primary and proper backups for it. */
  lemma EveryResolvedChainIsValid(c: Config, rows: Rows)
    requires EnvIsValid(c)
    ensures IsChain(c, Resolve(c, rows).primary.value, Resolve(c, rows).backups.values)
  {
    var primary := PrimaryOf(c, rows.primary).value;
    EnvBackupsAreBackups(c, primary);
    if rows.backups.Some? && rows.backups.value.Listed? {
      var values := rows.backups.value.values;
      if Validated(c.check, c.cap, values, primary).Ok? {
        AcceptedAreBackups(c.check, c.cap, values, primary, Validated(c.check, c.cap, values, primary).value);
      }
    }
  }

  // --- What is in effect ------------------------------------------------------------------------------

  /** `out` is those values that are not the primary, in their order: `at` are the places they come from. */
  ghost predicate IsWithout(values: seq<string>, primary: string, out: seq<string>, at: seq<nat>) {
    && |at| == |out|
    && (forall k :: 0 <= k < |at| ==> at[k] < |values| && out[k] == values[at[k]] && out[k] != primary)
    && (forall k, l :: 0 <= k < l < |at| ==> at[k] < at[l])
    && (forall i :: 0 <= i < |values| && values[i] != primary ==> i in at)
  }

  lemma {:induction false} WithoutDropsOnlyThePrimary(values: seq<string>, primary: string, n: nat)
      returns (at: seq<nat>)
    requires n <= |values|
    ensures IsWithout(values[..n], primary, Without(values, primary, n), at)
  {
    if n == 0 {
      at := [];
    } else {
      var m := n - 1;
      at := WithoutDropsOnlyThePrimary(values, primary, m);
      OneMoreValue(values, primary, m, at);
      if values[m] != primary {
        at := at + [m];
      }
    }
  }

  lemma OneMoreValue(values: seq<string>, primary: string, m: nat, at: seq<nat>)
    requires m < |values| && IsWithout(values[..m], primary, Without(values, primary, m), at)
    ensures IsWithout(values[..m + 1], primary, Without(values, primary, m + 1),
                      if values[m] != primary then at + [m] else at)
  {
    var more := values[..m + 1];
    assert forall i :: 0 <= i < m ==> more[i] == values[..m][i];
    assert more[m] == values[m];
    var at' := if values[m] != primary then at + [m] else at;
    forall i | 0 <= i < |more| && more[i] != primary
      ensures i in at'
    {
      assert i < m ==> i in at;
      assert i == m ==> at'[|at'| - 1] == m;
    }
  }

  /**
   Without a stored list, or with one that is rejected, the backups in effect are all of the
   environment's but the primary in effect, in the environment's order.
   */
  lemma EnvironmentBackupsAreInEffect(c: Config, rows: Rows) returns (at: seq<nat>)
    requires !Resolve(c, rows).backups.fromSettings
    ensures IsWithout(c.env.backups, Resolve(c, rows).primary.value, Resolve(c, rows).backups.values, at)
  {
    at := WithoutDropsOnlyThePrimary(c.env.backups, Resolve(c, rows).primary.value, |c.env.backups|);
    assert c.env.backups[..|c.env.backups|] == c.env.backups;
  }

  /** With no rows at all, as after a failed read, the chain is the environment's own. */
  lemma NoRowsMeanTheEnvironment(c: Config)
    requires EnvIsValid(c)
    ensures Resolve(c, Rows(None, None)) ==
            Resolved(Slot(c.env.primary, false, None), Backups(c.env.backups, false, None))
  {
    NothingIsDropped(c.env.backups, c.env.primary, |c.env.backups|);
    assert c.env.backups[..|c.env.backups|] == c.env.backups;
  }

  lemma {:induction false} NothingIsDropped(values: seq<string>, primary: string, n: nat)
    requires n <= |values| && Avoids(values, primary)
    ensures Without(values, primary, n) == values[..n]
  {
    if n == 0 {
    } else {
      NothingIsDropped(values, primary, n - 1);
      assert values[..n] == values[..n - 1] + [values[n - 1]];
    }
  }

  /** A stored primary is in effect exactly when the check passes it, and reports its error when not. */
  lemma StoredPrimaryIsInEffectIff(c: Config, rows: Rows)
    ensures var slot := Resolve(c, rows).primary;
            && (slot.fromSettings <==> rows.primary.Some? && c.check(rows.primary.value).Ok?)
            && Ok(slot.value) == (if slot.fromSettings then c.check(rows.primary.value) else Ok(c.env.primary))
            && (slot.error.Some? <==> rows.primary.Some? && c.check(rows.primary.value).Err?)
  {
  }

  /**
   A stored list is in effect exactly when it reads as a list of values that all pass, none twice
   and none the primary in effect, within the cap; and then as what the check made of them.
   */
  lemma StoredBackupsAreInEffectIff(c: Config, rows: Rows)
    ensures var primary, backups := Resolve(c, rows).primary.value, Resolve(c, rows).backups;
            && (backups.fromSettings <==>
                  && rows.backups.Some? && rows.backups.value.Listed?
                  && exists out :: AcceptedAs(c, rows.backups.value.values, primary, out))
            && (backups.fromSettings ==> AcceptedAs(c, rows.backups.value.values, primary, backups.values))
            && (backups.error.Some? <==> rows.backups.Some? && !backups.fromSettings)
  {
    var primary := Resolve(c, rows).primary.value;
    if rows.backups.Some? && rows.backups.value.Listed? {
      var values := rows.backups.value.values;
      forall out
        ensures AcceptedAs(c, values, primary, out) <==> Validated(c.check, c.cap, values, primary) == Ok(out)
      {
        AcceptedIff(c.check, c.cap, values, primary, out);
      }
    }
  }

  ghost predicate AcceptedAs(c: Config, values: seq<string>, primary: string, out: seq<string>) {
    Passes(c.check, values, out, |values|) && Distinct(out) && Avoids(out, primary) && WithinCap(c.cap, |out|)
  }

  // --- The chain that is built --------------------------------------------------------------------------

  /** The first n backups, less repeats and the primary: the chain `build_llm` makes behind its primary. */
  function Built(primary: string, backups: seq<string>, n: nat): seq<string>
    requires n <= |backups|
  {
    if n == 0 then [primary]
    else
      var before := Built(primary, backups, n - 1);
      if backups[n - 1] in before then before else before + [backups[n - 1]]
  }

  lemma {:induction false} BuiltIsDistinct(primary: string, backups: seq<string>, n: nat)
    requires n <= |backups|
    ensures Distinct(Built(primary, backups, n)) && Built(primary, backups, n)[..1] == [primary]
  {
    if n == 0 {
    } else {
      BuiltIsDistinct(primary, backups, n - 1);
      LastIsNew(Built(primary, backups, n - 1), backups[n - 1]);
    }
  }

  /** A resolved chain is built exactly as resolved: no model is dropped, repeated or moved. */
  lemma {:induction false} ResolvedChainIsBuiltWhole(primary: string, backups: seq<string>, n: nat)
    requires n <= |backups| && Distinct(backups) && Avoids(backups, primary)
    ensures Built(primary, backups, n) == [primary] + backups[..n]
  {
    if n == 0 {
    } else {
      ResolvedChainIsBuiltWhole(primary, backups, n - 1);
      assert backups[..n] == backups[..n - 1] + [backups[n - 1]];
      assert backups[n - 1] !in backups[..n - 1];
    }
  }
}
