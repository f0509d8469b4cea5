# Hash Records step: a Dafny model

This project models the "Hash Records" step, a plugin step for the Pentaho Data
Integration (Kettle) engine. The step hashes the text of one field of each row into a
new integer field. It has three settings: the input field name, the output field name
and a seed. For each row it looks both names up in the output schema. It hashes the
input cell's text with MurmurHash3 (128 bits, low 64 kept as a `long`) and writes the
hash into the output cell in place. The output schema is the input schema plus one
integer field, computed once, on the first row.

The model is split by source file, plus the platform pieces the step calls:

- `wrappers.dfy` (`Wrappers`): `Option`, `Result` and `Outcome` for nulls, exceptions and `void` methods.
- `java_lang.dfy` (`JavaLang`): Java `int`/`long`/`byte`, the narrowing `(int) long`, and `String.valueOf(long)` and `Long.parseLong` on ASCII decimal numerals.
- `kettle.dfy` (`Kettle`): stand-ins for the engine API the step calls.
  - Field descriptors and row cells.
  - A `RowMeta` class whose `addValueMeta` appends in place, and `indexOfValue` as first exact match.
  - The XML helpers `getSubNode`/`getNodeValue`/`addTagValue` and `Const.NVL`, over a list of child elements.
  - `RowDataUtil.resizeArray` as an array copy.
  - Check remarks and the remark list.
- `hash_plugin_meta.dfy` (`HashPluginMeta`): `HashPDIPluginMeta` as the class `HashMeta`.
  - The three fields, their setters and `setDefault`.
  - `getXML` and `readData`, specified by the functions `ConfigXml` and `ReadStepNode`.
  - `getFields`, specified by `OutputSchema`.
  - `check`, specified by `CheckRemarks`.
- `hash_plugin.dfy` (`HashPlugin`): `HashPDIPlugin` as the class `HashStep`.
  - The seed rule `EffectiveSeed` and the hash `Murmurhash3`.
  - `hashRow`, specified by `HashRowResult`.
  - `setupProcessor`, and `processRow` with its `first` flag.

The hash library is kept abstract. `HashLibrary` carries two arbitrary functions:
one stands for `Hashing.murmur3_128(seed).hashBytes(bytes).asLong()` and one for
`String.getBytes()`. Every property below holds for every choice of the two.
Determinism is built into this form: the hash of a text is a function of the text's
bytes and the narrowed seed, and nothing else.

Two facts about the code that the model keeps:

- The seed rule applies to the configured `long` after narrowing to `int`, not to the `long` itself. So 2^32 selects the legacy seed 1073741823, and 2^32 + 42 selects 42.
- `getFields` always appends the output field, even when the input schema already has a field of that name.
  - With the exact-match lookup used here, the output name then resolves to the earlier field of that name (`OutputSchemaLookup`), and the hash lands there.
  - The appended cell is a padding cell, null after `resizeArray` (`Kettle.Resized`), and `hashRow` writes only the output cell (`HashRowResult`), so it stays null.

## Model

| member | source | states |
|---|---|---|
| `JavaLang.IntValue` | hash-pdi-plugin/src/main/java/com/si/HashPDIPlugin.java:72 | `(int)` of a `long` is an `int` congruent to it modulo 2^32, and equals it when it already fits in an `int` |
| `JavaLang.IntValueUnique` | hash-pdi-plugin/src/main/java/com/si/HashPDIPlugin.java:72 | the narrowing is the only `int` congruent to its argument modulo 2^32, so the narrowing is exactly "keep the low 32 bits" |
| `JavaLang.ParseLong` | hash-pdi-plugin/src/main/java/com/si/HashPDIPluginMeta.java:108 | `Long.parseLong` accepts only an optional sign followed by at least one digit; a leading `-` gives a value at most 0, otherwise at least 0 |
| `JavaLang.DecimalDigitsValue` | hash-pdi-plugin/src/main/java/com/si/HashPDIPluginMeta.java:91 | the decimal digits `String.valueOf` writes for a non-negative number read back as that number |
| `JavaLang.ParseLongRoundTrip` | hash-pdi-plugin/src/main/java/com/si/HashPDIPluginMeta.java:91-108 | `Long.parseLong(String.valueOf(s)) == s` for every `long` s, negative values and both extremes included |
| `JavaLang.DecimalDigits` | hash-pdi-plugin/src/main/java/com/si/HashPDIPluginMeta.java:91 | the digits `String.valueOf` writes for a non-negative number: at least one, all decimal digits, a single digit exactly for values below 10, and no leading zero otherwise |
| `JavaLang.LongToString` | hash-pdi-plugin/src/main/java/com/si/HashPDIPluginMeta.java:91 | `String.valueOf(long)` is non-empty, starts with `-` exactly for negative values, and is digits after that sign |
| `JavaLang.ParseLongRange` | hash-pdi-plugin/src/main/java/com/si/HashPDIPluginMeta.java:108 | a numeral is accepted exactly when its value lies in the `long` range: up to 2^63 - 1 unsigned, down to -2^63 with a minus sign |
| `Kettle.FirstIndexOf` | hash-pdi-plugin/src/main/java/com/si/HashPDIPlugin.java:88-89 | the lookup returns -1 or a valid index; a non-negative result names a field of that name with none earlier; -1 means no field has the name |
| `Kettle.FirstIndexOfAppend` | hash-pdi-plugin/src/main/java/com/si/HashPDIPluginMeta.java:145 | appending a field keeps every lookup that already succeeded; the appended name resolves to the new last position only if it was absent |
| `Kettle.RowMeta.AddValueMeta` | hash-pdi-plugin/src/main/java/com/si/HashPDIPluginMeta.java:145 | the schema grows by exactly the given descriptor at its end |
| `Kettle.RowMeta.Clone` | hash-pdi-plugin/src/main/java/com/si/HashPDIPlugin.java:108 | the copy is a new object holding the same descriptors, so extending it leaves the input schema alone |
| `Kettle.Resized` | hash-pdi-plugin/src/main/java/com/si/HashPDIPlugin.java:134-136 | the padded row has length `max(r.length, width)`, starts with the old cells, and every new trailing cell is null |
| `Kettle.ResizeArray` | hash-pdi-plugin/src/main/java/com/si/HashPDIPlugin.java:134-136 | the array handed back holds the padded row; it is the same array when already wide enough, otherwise a new one |
| `Kettle.TagValue` | hash-pdi-plugin/src/main/java/com/si/HashPDIPluginMeta.java:106-108 | a missing element reads as null; a non-null value is the text of some element with that tag |
| `Kettle.TagValueFirst` | hash-pdi-plugin/src/main/java/com/si/HashPDIPluginMeta.java:106-108 | the first element with the tag decides the value read, whatever follows it |
| `Kettle.AddTagValue` | hash-pdi-plugin/src/main/java/com/si/HashPDIPluginMeta.java:89-91 | the element written carries the tag, and has no text exactly when the value is empty |
| `Kettle.Nvl` | hash-pdi-plugin/src/main/java/com/si/HashPDIPluginMeta.java:106-108 | `Const.NVL` gives the fallback for null, and otherwise the value itself or the fallback |
| `Kettle.TagValueSkip` | hash-pdi-plugin/src/main/java/com/si/HashPDIPluginMeta.java:106-108 | elements without the tag placed before the others do not change what is read for it |
| `Kettle.ReadBackTagValue` | hash-pdi-plugin/src/main/java/com/si/HashPDIPluginMeta.java:89-108 | reading back a written element with `NVL` gives the written value, or the fallback when the value was empty |
| `HashPluginMeta.ReadStepNode` | hash-pdi-plugin/src/main/java/com/si/HashPDIPluginMeta.java:104-112 | `readData` sets both names from their elements, falling back to `""`. It succeeds exactly when the seed text, or `-1` if the element is missing, parses as a `long`. On failure the names are already set and the seed is left as it was |
| `HashPluginMeta.MissingTagsRead` | hash-pdi-plugin/src/main/java/com/si/HashPDIPluginMeta.java:106-108 | settings without the three elements read as `""`, `""` and seed -1, without failure |
| `HashPluginMeta.SettingsReadBack` | hash-pdi-plugin/src/main/java/com/si/HashPDIPluginMeta.java:87-108 | the three elements `getXML` writes, whatever texts they hold, read back as those texts when the elements before them lack the three tags |
| `HashPluginMeta.XmlRoundTrip` | hash-pdi-plugin/src/main/java/com/si/HashPDIPluginMeta.java:87-112 | reading back what `getXML` wrote restores all three settings and succeeds, whatever the prior settings and whatever other elements the host puts before (without these tags) or after |
| `HashPluginMeta.OutputSchema` | hash-pdi-plugin/src/main/java/com/si/HashPDIPluginMeta.java:141-146 | the output schema is the input schema, unchanged and in place, followed by exactly one integer field named `outField` with the step as origin |
| `HashPluginMeta.OutputSchemaLookup` | hash-pdi-plugin/src/main/java/com/si/HashPDIPluginMeta.java:141-146 | in the output schema `outField` always resolves, to its earlier position or to the appended field; every other name resolves as in the input schema |
| `HashPluginMeta.CheckRemarks` | hash-pdi-plugin/src/main/java/com/si/HashPDIPluginMeta.java:148-171 | exactly two remarks. The first is a warning iff the previous schema is null or empty, else OK. The second is an error iff there are no input hops, else OK |
| `Kettle.RemarkList.Add` | hash-pdi-plugin/src/main/java/com/si/HashPDIPluginMeta.java:155-169 | `remarks.add` appends exactly the given remark after those already in the list |
| `HashPluginMeta.HashMeta.constructor` | hash-pdi-plugin/src/main/java/com/si/HashPDIPluginMeta.java:52-61 | a new configuration holds `""`, `""` and seed 0 |
| `HashPluginMeta.HashMeta.SetInField` | hash-pdi-plugin/src/main/java/com/si/HashPDIPluginMeta.java:63-69 | only `inField` changes, and the getter returns the value set |
| `HashPluginMeta.HashMeta.SetOutField` | hash-pdi-plugin/src/main/java/com/si/HashPDIPluginMeta.java:71-77 | only `outField` changes, and the getter returns the value set |
| `HashPluginMeta.HashMeta.SetSeedValue` | hash-pdi-plugin/src/main/java/com/si/HashPDIPluginMeta.java:79-85 | only `seedValue` changes, and the getter returns the value set |
| `HashPluginMeta.HashMeta.GetXml` | hash-pdi-plugin/src/main/java/com/si/HashPDIPluginMeta.java:87-93 | the three elements written, in order, are ones that `readData` turns back into the same settings from any prior state |
| `HashPluginMeta.HashMeta.ReadData` | hash-pdi-plugin/src/main/java/com/si/HashPDIPluginMeta.java:95-112 | the fields and the outcome after `readData` are those `ReadStepNode` gives from the fields before |
| `HashPluginMeta.HashMeta.SetDefault` | hash-pdi-plugin/src/main/java/com/si/HashPDIPluginMeta.java:114-118 | a reset configuration holds `""`, `""` and seed 0 |
| `HashPluginMeta.HashMeta.GetFields` | hash-pdi-plugin/src/main/java/com/si/HashPDIPluginMeta.java:141-146 | the schema passed in becomes its old fields followed by the output field |
| `HashPluginMeta.HashMeta.Check` | hash-pdi-plugin/src/main/java/com/si/HashPDIPluginMeta.java:148-171 | the remark list grows by exactly the two remarks `CheckRemarks` gives, after the remarks already there |
| `HashPlugin.EffectiveSeed` | hash-pdi-plugin/src/main/java/com/si/HashPDIPlugin.java:72-75 | the seed used is always positive: the narrowed configured seed when that is positive, otherwise exactly 1073741823 |
| `HashPlugin.Murmurhash3` | hash-pdi-plugin/src/main/java/com/si/HashPDIPlugin.java:71-79 | the hash of a text is the library hash of its bytes under the narrowed seed when positive, else under 1073741823 |
| `HashPlugin.DefaultSeedsSelectLegacySeed` | hash-pdi-plugin/src/main/java/com/si/HashPDIPlugin.java:73-75 | both default seeds, 0 from `setDefault` and -1 from a missing element, select 1073741823 |
| `HashPlugin.SeedNarrowingExamples` | hash-pdi-plugin/src/main/java/com/si/HashPDIPlugin.java:72-76 | 42 passes through; 2^32 narrows to 0 and selects the legacy seed; 2^32 + 42 selects 42; 2^31 narrows to a negative `int` and selects the legacy seed |
| `HashPlugin.SeedLowBitsDecide` | hash-pdi-plugin/src/main/java/com/si/HashPDIPlugin.java:72-78 | configured seeds that agree in their low 32 bits give the same hash for every text |
| `HashPlugin.HashRowResult` | hash-pdi-plugin/src/main/java/com/si/HashPDIPlugin.java:87-100 | A lookup miss leaves the row unchanged, with no error. With both fields found: null input gives `NullPointerException`; a non-`String` gives `ClassCastException`; text gives success. On success the length and every cell but the output cell are kept. The output cell gets the hash of the input cell's old text, also when both fields are the same |
| `HashPlugin.HashAppendsOutputCell` | hash-pdi-plugin/src/main/java/com/si/HashPDIPlugin.java:130-138 | for an input schema without the output field, a row whose input cell holds text comes out as the same row with its hash appended |
| `HashPlugin.HashStep.constructor` | hash-pdi-plugin/src/main/java/com/si/HashPDIPlugin.java:46-49 | a new step is on its first row and has no output schema yet |
| `HashPlugin.HashStep.HashRow` | hash-pdi-plugin/src/main/java/com/si/HashPDIPlugin.java:87-100 | the array afterwards holds the row `HashRowResult` gives, or is untouched when that is an exception, which is then raised |
| `HashPlugin.HashStep.SetupProcessor` | hash-pdi-plugin/src/main/java/com/si/HashPDIPlugin.java:107-112 | the output schema becomes a new copy of the input schema extended by the output field, and the `first` flag is cleared |
| `HashPlugin.HashStep.ProcessRow` | hash-pdi-plugin/src/main/java/com/si/HashPDIPlugin.java:122-147 | A null row ends processing and changes no state. On the first row the output schema is set up. On later rows it is kept, object and fields. The row is padded to the schema width and then hashed; the result is handed on, or the exception is raised. When the array is already wide enough the row handed on is that same array; when hashing fails or the row had to be widened, the array passed in is left as it was |
| `HashPlugin.HelloScenario` | hash-pdi-plugin/src/main/java/com/si/HashPDIPlugin.java:122-147 | input field `msg`, output field `hashed`, seed 0: `["hello"]` and then `["world"]` come out with their legacy-seed hashes appended, and a null row ends the input |

## Left out

- The MurmurHash3 algorithm and `String.getBytes()` belong to libraries; they are the two abstract functions of `HashLibrary`. Uniqueness of hashes is a probabilistic property and is not stated.
- Logging is not modelled: the advisory message when a field is missing and the progress message after each row.
- Row transport is not modelled either: `getRow`, `putRow`, `setOutputDone` and `checkFeedback`. The row and the input schema are parameters of `ProcessRow`, and the row to send on is its result.
- `init` (two casts), `clone`, `getStep`, `getStepData` and `getDialogClassName` are engine wiring and have no behaviour to state.
- `readRep` and `saveRep` read and write the engine's repository; that I/O is not modelled.
- `getXML` is modelled as the list of elements it writes. The text form and XML escaping belong to the engine's `XMLHandler`.
- `Kettle.FirstIndexOf`: the engine's `indexOfValue` matches names case-insensitively; the model matches exactly.
- `Kettle.RowMeta.AddValueMeta`: the engine's `addValueMeta` renames a field whose name is already present; the model appends it as is.
- `Kettle.ResizeArray`: pads to exactly the schema width. The engine's `RowDataUtil.resizeArray` is not part of this model and may allocate extra trailing null cells.
- `JavaLang.ParseLong`: accepts ASCII digits only. `Long.parseLong` also accepts the decimal digits of other scripts.
- `HashPluginMeta.HashMeta.SetSeedValue`: the seed is a non-null `long`. A null `Long` set through the dialog would make hashing throw; that case is not modelled.
- `HashPluginMeta.CheckRemarks`: a remark keeps its kind and message key only. The localised text, its argument (the field count) and the step reference are dropped.
- Parallel copies of the step are the engine's concern; each `HashStep` object is one copy.
