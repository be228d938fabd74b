# Android phrase containers, modelled in Dafny

This project models two phrase classes of an Android string-resource
translation tool. A phrase is one entry of a resource file. Each class keeps
its values in memory, reports how complete they are, turns them into a
payload and back, and renders them as resource text.

- `Phrase_Android_Plurals` is a `<plurals>` entry. It holds an ordered,
  string-keyed array from quantity names to strings. A new phrase holds the
  six CLDR plural category names `zero`, `one`, `two`, `few`, `many` and
  `other`. It offers:
  - per-key updates that refuse unknown keys;
  - filling empty quantities with a default;
  - a completeness count;
  - a payload with a full mode, a default-language mode and a keys-only mode,
    which also sets the `isEmpty` flag;
  - four renderers: Android XML, Android XML with escaped HTML, a JSON
    fragment and plaintext.
- `Phrase_Android_StringArray` is a `<string-array>` entry. It holds an ordered
  list of strings, with replace, append, a completeness ratio, a payload and
  an XML renderer.

Files:

- `php.dfy` (module `Php`): the parts of PHP the classes rely on.
  - `empty()` on a string is true for `""` and for `"0"`.
  - `implode` is `Join`; `explode` on a one-character separator is `Split`.
  - `Lines` is the string a `.=` loop builds from lines that each end in a line
    break.
- `php_array.dfy` (module `PhpArray`): a PHP array with string keys, as an
  ordered list of `(key, value)` pairs with distinct keys. `Assign` is
  `$a[$k] = $v`: it overwrites in place, or appends a new key at the end.
- `raw_escaper.dfy` (module `RawEscaper`): the output formats. The escaper
  `writeToRaw` is a parameter of every renderer, and nothing is assumed about
  it.
- `plurals.dfy` (module `Plurals`): the class `PluralsPhrase` and the
  functions and lemmas that specify it.
- `string_array.dfy` (module `StringArray`): the class `StringArrayPhrase` and
  the functions and lemmas that specify it.

Each mutating PHP method becomes a method of a Dafny class that updates the
`values` and `isEmpty` fields. Each PHP loop becomes a Dafny loop with
invariants. Each loop is proved against a specification function:
- `FillFrom` for `fillWithDefault`;
- `CountFilled` for the completeness loops;
- `Items`, `XmlDocument`, `JsonDocument`, `PlaintextDocument` and `Document`
  for the renderers.

Lemmas then relate those functions to what the class promises:
- `FillMatchesReference` proves `FillFrom` equal to an independent, all-at-once
  description of the fill. `FillKeepsEntries`, `FillCompletesCatalog` and
  `FillIdempotent` build on it.
- `XmlLines`, `JsonLines`, `JsonItemLines`, `PlaintextLines` and `OutputLines` read a rendered
  document back with `explode("\n", ...)`. They show one line per value, in the
  order of the values.

## Model

| member | source | states |
|---|---|---|
| Plurals.GetList | classes/Phrase_Android_Plurals.php:14-21 | the quantity list has six distinct names, from `zero` to `other` |
| Plurals.PluralsPhrase.constructor | classes/Phrase_Android_Plurals.php:24-34 | a new phrase holds exactly the six quantities, in list order, each mapped to "" |
| Plurals.FreshCompleteness | classes/Phrase_Android_Plurals.php:155-165 | a newly constructed phrase, asked for its completeness, reports 0 filled values out of 6 |
| Plurals.PluralsPhrase.SetPhraseValue | classes/Phrase_Android_Plurals.php:125-132 | succeeds exactly when the key is present; then only that key's value changes and keys and order stay; otherwise fails with "Unknown sub-key" and changes nothing |
| Plurals.PluralsPhrase.AddValue | classes/Phrase_Android_Plurals.php:141-148 | the same as setPhraseValue, failing with "Unknown quantity ID" |
| PhpArray.Assign | classes/Phrase_Android_Plurals.php:127 | assigning to a key overwrites it in place when it is present and appends it at the end when it is absent; keys stay distinct; no other value changes |
| Plurals.FillFrom | classes/Phrase_Android_Plurals.php:55-59 | the fill loop over any list of quantities keeps the keys distinct |
| Plurals.PluralsPhrase.FillWithDefault | classes/Phrase_Android_Plurals.php:54-60 | the new values are `FillWithDefaults` of the old ones; `isEmpty` is unchanged |
| Plurals.FillMatchesReference | classes/Phrase_Android_Plurals.php:54-60 | the fill loop equals the reference: original entries keep key and position, empty quantities among them hold the default, and the absent quantities follow in list order, each holding the default |
| Plurals.FillKeepsEntries | classes/Phrase_Android_Plurals.php:54-60 | filled values and non-quantity keys keep their values; empty quantities hold the default; appended entries are absent quantities holding the default |
| Plurals.FillCompletesCatalog | classes/Phrase_Android_Plurals.php:54-60 | after the fill all six quantities are present, and at most six entries were added |
| Plurals.FillIdempotent | classes/Phrase_Android_Plurals.php:54-60 | filling twice with the same default gives what filling once gives |
| Plurals.PluralsPhrase.GetCompleteness | classes/Phrase_Android_Plurals.php:155-165 | returns the number of non-empty values and the number of values, the first at most the second |
| Php.CountFilled | classes/Phrase_Android_Plurals.php:158-163 | the count is at most the length; it is 0 exactly when every value is empty and the length exactly when none is |
| Plurals.PluralsPhrase.SetPayload | classes/Phrase_Android_Plurals.php:83-107 | full mode: values become the payload's, and `isEmpty` holds exactly when the default-phrase flag is set or every payload value is empty; keys-only mode: values are the payload's keys in order, each "", and `isEmpty` is set |
| Plurals.PayloadFromValue | classes/Phrase_Android_Plurals.php:68-74 | the payload carries the tag `Phrase_Android_Plurals` and the given values unchanged |
| Plurals.PluralsPhrase.GetPayload | classes/Phrase_Android_Plurals.php:41-43 | the phrase's payload is tagged `Phrase_Android_Plurals` and carries its current values |
| Plurals.PluralsPhrase.GetPhraseValues | classes/Phrase_Android_Plurals.php:114-116 | returns the live values, keys and order included |
| Plurals.PayloadRoundTrip | classes/Phrase_Android_Plurals.php:83-107 | in full mode, setting a phrase's own payload keeps its values, and `isEmpty` then means that no value is filled; in keys-only mode the keys stay and every value is cleared |
| Plurals.PluralsPhrase.CollectItems | classes/Phrase_Android_Plurals.php:173-176 | the renderers' loop builds one escaped item per entry, in the order of the values |
| Plurals.PluralsPhrase.OutputAndroidXml | classes/Phrase_Android_Plurals.php:172-179 | the output is the `<plurals>` block over the items, escaped with the Android XML format |
| Plurals.PluralsPhrase.OutputAndroidXmlEscapedHtml | classes/Phrase_Android_Plurals.php:186-193 | the same block, escaped with the escaped-HTML format |
| Plurals.XmlLines | classes/Phrase_Android_Plurals.php:172-179 | read back line by line: the opening line, exactly one `<item quantity=...>` line per entry in the order of the values (a blank line if there is none), then the closing line |
| Plurals.PluralsPhrase.OutputJson | classes/Phrase_Android_Plurals.php:200-207 | the output is the JSON block over the items, joined by `",\n"` |
| Plurals.JsonLines | classes/Phrase_Android_Plurals.php:200-207 | read back line by line: the opening line, one line per entry (a blank line if there is none), then the closing line |
| Plurals.JsonItemLines | classes/Phrase_Android_Plurals.php:200-207 | read back line by line, for at least one entry: line i + 1 is entry i's `"quantity" : "value"` item, followed by a comma on every entry but the last |
| Plurals.PluralsPhrase.OutputPlaintext | classes/Phrase_Android_Plurals.php:214-221 | the output is the plaintext items joined by line breaks |
| Plurals.PlaintextLines | classes/Phrase_Android_Plurals.php:214-221 | with no entries the output is ""; otherwise, read back line by line, exactly one `key;plurals;quantity;value` line per entry in order, with no trailing line break |
| StringArray.StringArrayPhrase.constructor | classes/Phrase_Android_StringArray.php:9-12 | a new phrase has no values |
| StringArray.PayloadFromValue | classes/Phrase_Android_StringArray.php:75-81 | the payload carries the tag `Phrase_Android_StringArray` and the given list unchanged |
| StringArray.StringArrayPhrase.GetValues | classes/Phrase_Android_StringArray.php:25-27 | returns the live list |
| StringArray.StringArrayPhrase.GetPhraseValues | classes/Phrase_Android_StringArray.php:86-88 | returns the live list, the same as `getValues` |
| StringArray.StringArrayPhrase.GetPayload | classes/Phrase_Android_StringArray.php:65-67 | the phrase's payload is tagged `Phrase_Android_StringArray` and carries its current list |
| StringArray.StringArrayPhrase.SetValues | classes/Phrase_Android_StringArray.php:14-16 | afterwards both `getValues` and `getPhraseValues` return the given list |
| StringArray.StringArrayPhrase.AddValue | classes/Phrase_Android_StringArray.php:18-20 | appends: the length grows by one, the last value is the new one and the earlier ones are unchanged, duplicates included |
| StringArray.StringArrayPhrase.Output | classes/Phrase_Android_StringArray.php:34-41 | the `.=` loop builds the document: the opening line, one item line per value, the closing line, each ending in a line break |
| StringArray.DocumentLines | classes/Phrase_Android_StringArray.php:34-41 | read back line by line, the document gives its lines and one empty piece after the final line break |
| StringArray.OutputLines | classes/Phrase_Android_StringArray.php:34-41 | the output has the opening line, exactly one `<item>` line per value in list order, the closing line, and ends with a line break |
| StringArray.StringArrayPhrase.GetCompleteness | classes/Phrase_Android_StringArray.php:48-58 | for a non-empty list, returns the number of non-empty values and the length, so the ratio lies between 0 and 1 |
| StringArray.StringArrayPhrase.SetPayload | classes/Phrase_Android_StringArray.php:96-108 | full mode: values become the payload's list; keys-only mode: as many "" as the payload has values; `isEmpty` is not touched |
| StringArray.PayloadRoundTrip | classes/Phrase_Android_StringArray.php:96-108 | setting a phrase's own payload restores its values in full mode and clears them, keeping the length, in keys-only mode |

## Left out

- JSON text is not modelled. `json_encode` and `json_decode` are library calls, so a payload is the decoded value `Payload(cls, values)`. Malformed JSON, or a payload without `values`, is not modelled. `Plurals.PluralsPhrase.SetPayload` requires a payload whose keys are distinct, as every decoded PHP array's are.
- Escaping is not modelled. `writeToRaw` and the `File_IO` format constants belong to the base class `Phrase_Android.php` and to `File_IO`, which are not part of this model. The escaper is a function parameter over the enumeration `Format`, and no property of escaping is stated. `Phrase_Android.php` is not part of this model.
- The base-class fields are not modelled. `id` and `enabledForTranslation` are left out, `phraseKey` is a given string, and `isEmpty` is a plain field. The constructors leave `isEmpty` open, because the base class sets it.
- StringArray.StringArrayPhrase.GetCompleteness: returns the pair (non-empty count, length) instead of the floating-point quotient. It requires a non-empty list, because the source divides by the length.
- PHP runtime details are not modelled. These are: null values, for which `isset` is false; non-string JSON values; the coercion of numeric-string keys to integers; and a null `$subKey` in `addValue`, which PHP reads as the key "". All keys and values are strings here, so `isset` is key membership.
- The renderers follow the order of the values, not the order of the quantity list. Full-mode `setPayload` installs whatever keys the payload carries, so the six-key set is not an invariant. The model follows the code on both points.
- Plurals.XmlLines, Plurals.JsonLines, Plurals.JsonItemLines, Plurals.PlaintextLines, StringArray.OutputLines: state the line structure only when the phrase key, the quantities and the escaped values hold no line break.
