# Portus configuration migration, modelled in Dafny

This project models `Portus::Migrate`, the helper that reads legacy
configuration values of the Portus registry web application and refuses the
shapes that are no longer supported. Its two operations are pure functions:

- `from_humanized_time(value, default)` turns a raw configuration value into a
  duration in minutes. An integer is taken as minutes. A string holding a
  decimal integer is parsed and taken as minutes. A legacy code-like
  expression such as `"3.minutes"` or `"3.seconds"` raises
  `Portus::DeprecationError`. Anything else falls back to `default` minutes.
- `registry_config(key)` resolves a setting from the configuration tree. A
  value under the `registry` mapping is returned. When that is nil and the
  top-level entry for the key still has the legacy shape `{ "value" => … }`,
  it raises `Portus::DeprecationError`.

The implementation file of `Portus::Migrate` is not part of this model. Its
behaviour is taken from the RSpec examples in
`spec/lib/portus/migrate_spec.rb`. Where those examples leave a case open,
the choice made here, and its reason, is named below.

Files:

- `decimal.dfy` (module `Decimal`): decimal digit strings. `Parse` reads one,
  `Show` renders a natural number, and the two are proved inverse on
  canonical strings.
- `migrate.dfy` (module `Migrate`): the raw value `Raw`, the outcome
  `Outcome` (`Ok(value)` or `Deprecated`, the deprecation error), the
  configuration tree `Cfg`, and the two operations with their properties.

Modelling choices:

- A duration is an `int` count of minutes; ActiveSupport's `Duration` is not
  modelled.
- The global `APP_CONFIG` is an explicit argument `app: Cfg`. A missing key,
  an explicit nil and a lookup inside a non-mapping all read as `Null`. So an
  explicit nil under `registry` falls through to the legacy check.
- The legacy shape is a top-level mapping that has a `"value"` key, whatever
  that key holds.
- When neither location holds the setting, `RegistryConfig` returns
  `Ok(Null)` (nil) and does not raise. No example in `migrate_spec.rb`
  covers a setting missing from both places; the model returns nil there,
  because the examples make only the legacy shape an error.

## Model

| member | source | states |
|---|---|---|
| Migrate.FromHumanizedTime | spec/lib/portus/migrate_spec.rb:4-27 | An integer gives itself; a decimal digit string gives its value; an unusable value gives the default; the result is the deprecation error exactly when the value is a legacy expression string |
| Migrate.IntegerStringAgrees | spec/lib/portus/migrate_spec.rb:5-13 | For every natural n, the integer n and its decimal string both give n minutes, whatever default each is offered |
| Migrate.LegacyExpressionDeprecated | spec/lib/portus/migrate_spec.rb:22-26 | Every string "<n>.minutes" or "<n>.seconds" raises the deprecation error instead of falling back to the default |
| Migrate.DefaultOnlyWhenUnusable | spec/lib/portus/migrate_spec.rb:15-20 | A value gives back each default it is offered exactly when it is unusable (neither integer, integer string nor legacy expression); every other value ignores the default |
| Migrate.Idempotent | spec/lib/portus/migrate_spec.rb:5-13 | A resulting minute count, fed back as an integer or (when non-negative) as its decimal string, normalizes to itself |
| Migrate.CanonicalStringRoundTrip | spec/lib/portus/migrate_spec.rb:10-13 | A canonical integer string is accepted, and rendering its minute count gives the same string back |
| Migrate.HumanizedTimeExamples | spec/lib/portus/migrate_spec.rb:4-27 | The six test examples: (3, 2) and ("3", 2) give 3; a regex and "badformat" give the default 2; "3.minutes" and "3.seconds" raise |
| Migrate.IsLegacyExpression | spec/lib/portus/migrate_spec.rb:22-26 | The legacy-expression recogniser: a recognised string is longer than eight characters and is a prefix, a '.', and the unit word `minutes` or `seconds` (the prefix being a non-empty run of the digits 0-9) |
| Migrate.IsUnusable | spec/lib/portus/migrate_spec.rb:15-20 | Definition of the "default on error" class: every value that is neither integer nor string (the regex), and the strings that are neither digit strings nor legacy expressions ("badformat"); `DefaultOnlyWhenUnusable` proves these are exactly the values that return the default |
| Migrate.HumanizedTimeEdgeCases | spec/lib/portus/migrate_spec.rb:10-26 | Beyond the examples: "120" gives 120 (most significant digit first); "10.minutes" and "03.seconds" raise; ".minutes" and "" give the default. That "-3" and "1.hours" give the default is the model's choice, under the simplified integer syntax and legacy pattern named under "Left out" (Ruby's `Integer("-3")` is -3) |
| Migrate.LegacyExpression | spec/lib/portus/migrate_spec.rb:22-26 | "<n>.<unit>" built from any natural n and unit word is a legacy expression, with the number and the unit recoverable from it |
| Migrate.LegacyIsNotInteger | spec/lib/portus/migrate_spec.rb:10-26 | No legacy expression is an integer string, so the integer path and the deprecation path never compete |
| Decimal.Show | spec/lib/portus/migrate_spec.rb:10-13 | The decimal rendering of n is a canonical digit string that parses back to n |
| Decimal.ShowParse | spec/lib/portus/migrate_spec.rb:10-13 | Parsing a canonical digit string and rendering the value gives the string back |
| Decimal.ParseInjective | spec/lib/portus/migrate_spec.rb:10-13 | Two canonical digit strings parse to the same number exactly when they are equal |
| Decimal.Parse | spec/lib/portus/migrate_spec.rb:10-13 | The value of a digit string of length k is below 10^k, and at least 10^(k-1) when it has no leading zero |
| Migrate.RegistryConfig | spec/lib/portus/migrate_spec.rb:40-48 | A non-nil `registry.<key>` is returned; the result is the deprecation error exactly when that is nil and the top-level entry has the legacy shape; any successful result is the `registry.<key>` value |
| Migrate.Get | spec/lib/portus/migrate_spec.rb:32 | Definition of a key lookup in the way of Ruby's `hash[key]`: a present key of a mapping gives its entry; a missing key, or a lookup in something that is not a mapping, gives nil |
| Migrate.Current | spec/lib/portus/migrate_spec.rb:41-43 | The current-schema location `registry.<key>`: nil whenever `registry` itself is nil (as line 43 sets it), and a non-nil result is the entry under that key of the `registry` mapping; `RegistryEntryReturned` proves the converse, that a set entry is returned |
| Migrate.RegistryEntryReturned | spec/lib/portus/migrate_spec.rb:40-41 | When the `registry` mapping holds a non-nil entry for the key, that entry is the current value and `RegistryConfig` returns it |
| Migrate.IsLegacyShape | spec/lib/portus/migrate_spec.rb:44 | The legacy `{ "value" => … }` shape: only mappings have it, and every mapping with a non-nil "value" field has it |
| Migrate.RegistryConfigAbsent | spec/lib/portus/migrate_spec.rb:40-48 | A setting missing from both places resolves to nil without raising (a case the examples leave open; the model keeps the error for the legacy shape only) |
| Migrate.CurrentSchemaWins | spec/lib/portus/migrate_spec.rb:40-41 | When `registry.<key>` is set, replacing the top-level entry for the key with anything leaves the result unchanged |
| Migrate.LegacyValueNeverReturned | spec/lib/portus/migrate_spec.rb:43-47 | With the legacy shape present, the outcome is the current value or the deprecation error, never the legacy value; with `registry.<key>` nil it is the error |
| Migrate.RegistryConfigExample | spec/lib/portus/migrate_spec.rb:40-48 | For every configuration with `registry.<key>` set, the setting resolves to a non-nil value; after clearing `registry` and writing `{ "value" => 5 }` at the top level, it raises |
| Migrate.MigrateLegacy | spec/lib/portus/migrate_spec.rb:43-47 | Moving the legacy "value" under `registry` and dropping the top-level entry puts the old value at the current location, keeps every other setting under `registry`, and leaves every other top-level key alone |
| Migrate.MigratedResolves | spec/lib/portus/migrate_spec.rb:43-47 | After that move the setting no longer raises and resolves to the value the legacy entry held |
| Migrate.Remove | spec/lib/portus/migrate_spec.rb:43-47 | Dropping a key (the second half of the move `MigrateLegacy` performs) makes it read as nil and leaves every other key as it was |
| Migrate.Put | spec/lib/portus/migrate_spec.rb:43-44 | Writing a key makes it read back the written value and leaves every other key as it was |

## Left out

- The implementation file of `Portus::Migrate` is not part of this model; the behaviour follows the RSpec examples in `spec/lib/portus/migrate_spec.rb`.
- Ruby's `Integer()` parsing quirks: surrounding whitespace, underscores, signs, and radix prefixes. A digit string with a leading zero is read here as decimal, while Ruby's `Integer()` reads `"010"` as octal and rejects `"08"`. Only non-empty strings of the digits 0-9 are integer strings in this model.
- The exact legacy regular expression: the model recognises only digits, `.`, and then `minutes` or `seconds`.
- ActiveSupport `Duration` values and any conversion from seconds: durations are plain `int` minute counts.
- The text of the deprecation error messages: the error is the bare `Deprecated` outcome.
- The mutable global `APP_CONFIG` and the test's save-and-restore hooks: the configuration is an immutable argument, and `Put` builds the edited copies the test writes (the after-hook's nil assignment is `Put(…, Null)`). `Remove` is used only by `MigrateLegacy`.
- A non-mapping `registry` entry reads as nil here; what the implementation does there is unspecified.
- Booleans, floating-point numbers and sequences are not among the `Cfg` values, so the model does not say whether, for example, a `false` under `registry` counts as set.
- The namespace form component (`app/assets/javascripts/modules/namespaces/components/new-form.js`): user-interface code with debounced remote validation over HTTP, with no algorithm to state.
