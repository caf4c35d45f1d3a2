/**
 The configuration-migration helper of the registry web application.

 `FromHumanizedTime` turns a raw configuration value into a number of
 minutes; `RegistryConfig` resolves a registry setting from the
 configuration tree. Both are strict about the one legacy shape they
 recognise (they answer `Deprecated`) and lenient about everything else
 (a default, or an absent value).
 */
module Migrate {
  import opened Decimal

  /** A raw configuration value as the loader hands it over. */
  datatype Raw = IntV(i: int) | StrV(s: string) | OtherV

  /** Either a usable value or the deprecation error. */
  datatype Outcome<T> = Ok(value: T) | Deprecated

  // ---------------------------------------------------------------------
  // Durations
  // ---------------------------------------------------------------------

  /** The unit words a legacy duration expression may end with. */
  predicate IsUnitWord(w: string) {
    w == "minutes" || w == "seconds"
  }

  // Boolean definitions that carry a contract of their own are written as
  // functions with a named result; those without one are plain predicates.

  /** A legacy code-like duration: digits, a '.', then a unit word ("3.minutes"). */
  function IsLegacyExpression(s: string): (b: bool)
    ensures b ==> |s| > 8 && IsDigits(s[..|s| - 8])
                  && exists unit :: IsUnitWord(unit) && s == s[..|s| - 8] + "." + unit
  {
    |s| > 8 && s[|s| - 8] == '.' && IsUnitWord(s[|s| - 7..]) && IsDigits(s[..|s| - 8])
  }

  /** Builds the legacy expression "<n>.<unit>". */
  function LegacyExpression(n: nat, unit: string): (s: string)
    requires IsUnitWord(unit)
    ensures IsLegacyExpression(s)
    ensures s[..|s| - 8] == Show(n) && s[|s| - 7..] == unit
  {
    var s := Show(n) + "." + unit;
    assert s[..|s| - 8] == Show(n);
    assert s[|s| - 7..] == unit;
    s
  }

  /** A legacy expression is never read as an integer string: the '.' is no digit. */
  lemma LegacyIsNotInteger(s: string)
    requires IsLegacyExpression(s)
    ensures !IsDigits(s)
  {
  }

  /** The values for which the default is used: neither an integer, nor an
      integer string, nor a legacy expression. */
  predicate IsUnusable(value: Raw) {
    value.OtherV? || (value.StrV? && !IsDigits(value.s) && !IsLegacyExpression(value.s))
  }

  /** The duration, in minutes, that a raw configuration value stands for. */
  function FromHumanizedTime(value: Raw, default: int): (r: Outcome<int>)
    ensures value.IntV? ==> r == Ok(value.i)
    ensures value.StrV? && IsDigits(value.s) ==> r == Ok(Parse(value.s))
    ensures IsUnusable(value) ==> r == Ok(default)
    ensures r == Deprecated <==> value.StrV? && IsLegacyExpression(value.s)
  {
    match value
    case IntV(n) => Ok(n)
    case StrV(s) =>
      if IsDigits(s) then Ok(Parse(s))
      else if IsLegacyExpression(s) then Deprecated
      else Ok(default)
    case OtherV => Ok(default)
  }

  /** An integer and its decimal string give the same duration, whatever the defaults. */
  lemma IntegerStringAgrees(n: nat, d1: int, d2: int)
    ensures FromHumanizedTime(StrV(Show(n)), d1) == FromHumanizedTime(IntV(n), d2) == Ok(n)
  {
  }

  /** Every "<n>.minutes" and "<n>.seconds" raises, whatever the default. */
  lemma LegacyExpressionDeprecated(n: nat, unit: string, d: int)
    requires IsUnitWord(unit)
    ensures FromHumanizedTime(StrV(LegacyExpression(n, unit)), d) == Deprecated
  {
  }

  /** The default is consulted exactly for the unusable values: those give back
      each default they are offered, all the others ignore it. */
  lemma DefaultOnlyWhenUnusable(value: Raw, d1: int, d2: int)
    requires d1 != d2
    ensures IsUnusable(value) <==>
              FromHumanizedTime(value, d1) == Ok(d1) && FromHumanizedTime(value, d2) == Ok(d2)
    ensures !IsUnusable(value) ==> FromHumanizedTime(value, d1) == FromHumanizedTime(value, d2)
  {
  }

  /** Normalizing is idempotent: a resulting minute count, fed back as an
      integer or (when non-negative) as its decimal string, gives itself again. */
  lemma Idempotent(value: Raw, d: int, d': int)
    requires FromHumanizedTime(value, d).Ok?
    ensures var m := FromHumanizedTime(value, d).value;
            && FromHumanizedTime(IntV(m), d') == Ok(m)
            && (m >= 0 ==> FromHumanizedTime(StrV(Show(m)), d') == Ok(m))
  {
  }

  /** A canonical integer string survives a round trip through a duration:
      rendering the minutes gives the string back. */
  lemma CanonicalStringRoundTrip(s: string, d: int)
    requires IsCanonical(s)
    ensures FromHumanizedTime(StrV(s), d).Ok?
    ensures Show(FromHumanizedTime(StrV(s), d).value) == s
  {
    ShowParse(s);
  }

  /** The RSpec examples in spec/lib/portus/migrate_spec.rb for `from_humanized_time`. */
  lemma HumanizedTimeExamples()
    ensures FromHumanizedTime(IntV(3), 2) == Ok(3)
    ensures FromHumanizedTime(StrV("3"), 2) == Ok(3)
    ensures FromHumanizedTime(OtherV, 2) == Ok(2)
    ensures FromHumanizedTime(StrV("badformat"), 2) == Ok(2)
    ensures FromHumanizedTime(StrV("3.minutes"), 2) == Deprecated
    ensures FromHumanizedTime(StrV("3.seconds"), 2) == Deprecated
  {
  }

  /** Inputs beyond the examples: several digits are read most significant
      first, any digit run before the unit is a legacy expression, and a
      missing number, another unit, a sign or the empty string fall back to
      the default. */
  lemma HumanizedTimeEdgeCases()
    ensures FromHumanizedTime(StrV("120"), 2) == Ok(120)
    ensures FromHumanizedTime(StrV("10.minutes"), 2) == Deprecated
    ensures FromHumanizedTime(StrV("03.seconds"), 2) == Deprecated
    ensures FromHumanizedTime(StrV(".minutes"), 2) == Ok(2)
    ensures FromHumanizedTime(StrV("1.hours"), 2) == Ok(2)
    ensures FromHumanizedTime(StrV("-3"), 2) == Ok(2)
    ensures FromHumanizedTime(StrV(""), 2) == Ok(2)
  {
    assert "120"[..2] == "12";
    assert "12"[..1] == "1";
    assert !IsDigit("-3"[0]);
    assert !IsDigit(".minutes"[0]);
    assert !IsDigit("1.hours"[1]);
  }

  // ---------------------------------------------------------------------
  // Registry settings
  // ---------------------------------------------------------------------

  /** A configuration tree: scalars and string-keyed mappings; Null is nil. */
  datatype Cfg = Null | Int(i: int) | Text(s: string) | Map(entries: map<string, Cfg>)

  /** The top-level mapping that holds the current registry settings. */
  const RegistryKey := "registry"

  /** The field that tags a setting stored in the legacy top-level shape. */
  const LegacyValueKey := "value"

  /** Looks a key up; a missing key, or a lookup in something that is not a
      mapping, gives Null. */
  function Get(c: Cfg, key: string): Cfg
  {
    if c.Map? && key in c.entries then c.entries[key] else Null
  }

  /** Sets a key, turning a non-mapping into a fresh mapping first. */
  function Put(c: Cfg, key: string, v: Cfg): (r: Cfg)
    ensures r.Map?
    ensures Get(r, key) == v
    ensures forall k :: k != key ==> Get(r, k) == Get(c, k)
  {
    var m := if c.Map? then c.entries else map[];
    Map(m[key := v])
  }

  /** Drops a key from a mapping. */
  function Remove(c: Cfg, key: string): (r: Cfg)
    ensures Get(r, key) == Null
    ensures forall k :: k != key ==> Get(r, k) == Get(c, k)
  {
    if c.Map? then Map(c.entries - {key}) else c
  }

  /** The setting's value in the current schema: `registry.<key>`. */
  function Current(app: Cfg, key: string): (r: Cfg)
    ensures Get(app, RegistryKey) == Null ==> r == Null
    ensures r != Null ==> Get(app, RegistryKey).Map? && key in Get(app, RegistryKey).entries
                          && Get(app, RegistryKey).entries[key] == r
  {
    Get(Get(app, RegistryKey), key)
  }

  /** A set `registry.<key>` is what the current location holds, and what
      `RegistryConfig` returns. */
  lemma RegistryEntryReturned(app: Cfg, key: string)
    requires Get(app, RegistryKey).Map? && key in Get(app, RegistryKey).entries
    requires Get(app, RegistryKey).entries[key] != Null
    ensures Current(app, key) == Get(app, RegistryKey).entries[key]
    ensures RegistryConfig(app, key) == Ok(Get(app, RegistryKey).entries[key])
  {
  }

  /** The legacy schema: a top-level mapping carrying a "value" field. */
  function IsLegacyShape(c: Cfg): (b: bool)
    ensures b ==> c.Map?
    ensures Get(c, LegacyValueKey) != Null ==> b
  {
    c.Map? && LegacyValueKey in c.entries
  }

  /** Resolves a registry setting; the legacy shape raises, but only when the
      current location holds nothing. */
  function RegistryConfig(app: Cfg, key: string): (r: Outcome<Cfg>)
    ensures Current(app, key) != Null ==> r == Ok(Current(app, key))
    ensures r == Deprecated <==> Current(app, key) == Null && IsLegacyShape(Get(app, key))
    ensures r.Ok? ==> r.value == Current(app, key)
  {
    var current := Current(app, key);
    if current != Null then Ok(current)
    else if IsLegacyShape(Get(app, key)) then Deprecated
    else Ok(Null)
  }

  /** The legacy top-level entry never influences a setting that is present
      under `registry`: replacing it with anything leaves the result alone. */
  lemma CurrentSchemaWins(app: Cfg, key: string, legacy: Cfg)
    requires key != RegistryKey
    requires Current(app, key) != Null
    ensures RegistryConfig(Put(app, key, legacy), key) == RegistryConfig(app, key)
  {
  }

  /** The legacy value is never returned: whenever the legacy shape is present,
      the outcome is the current value or the deprecation error. */
  lemma LegacyValueNeverReturned(app: Cfg, key: string)
    requires IsLegacyShape(Get(app, key))
    ensures RegistryConfig(app, key) == Deprecated || RegistryConfig(app, key) == Ok(Current(app, key))
    ensures Current(app, key) == Null ==> RegistryConfig(app, key) == Deprecated
  {
  }

  /** The edit the deprecation error asks for: move the legacy "value" under
      `registry` as a flat value and drop the top-level entry. */
  function MigrateLegacy(app: Cfg, key: string): (r: Cfg)
    requires key != RegistryKey
    ensures Current(r, key) == Get(Get(app, key), LegacyValueKey)
    ensures Get(r, key) == Null
    ensures forall k :: k != key && k != RegistryKey ==> Get(r, k) == Get(app, k)
    ensures forall k :: k != key ==> Get(Get(r, RegistryKey), k) == Get(Get(app, RegistryKey), k)
  {
    var legacy := Get(Get(app, key), LegacyValueKey);
    var registry := Put(Get(app, RegistryKey), key, legacy);
    Remove(Put(app, RegistryKey, registry), key)
  }

  /** After that edit the setting resolves, to the value the legacy entry held. */
  lemma MigratedResolves(app: Cfg, key: string)
    requires key != RegistryKey
    ensures RegistryConfig(MigrateLegacy(app, key), key) == Ok(Get(Get(app, key), LegacyValueKey))
  {
  }

  /** The RSpec example in spec/lib/portus/migrate_spec.rb for `registry_config`, for every
      configuration in which `registry.<key>` is set: the setting resolves to a
      non-nil value; after clearing `registry` and writing the legacy
      `{ "value" => 5 }` at the top level, it raises. */
  lemma RegistryConfigExample(app: Cfg, key: string)
    requires key != RegistryKey
    requires Current(app, key) != Null
    ensures RegistryConfig(app, key).Ok? && RegistryConfig(app, key).value != Null
    ensures var legacyApp := Put(Put(app, RegistryKey, Null), key, Map(map[LegacyValueKey := Int(5)]));
            RegistryConfig(legacyApp, key) == Deprecated
  {
  }

  /** A setting missing from both places is absent, not an error. */
  lemma RegistryConfigAbsent(app: Cfg, key: string)
    requires Current(app, key) == Null && Get(app, key) == Null
    ensures RegistryConfig(app, key) == Ok(Null)
  {
  }
}
