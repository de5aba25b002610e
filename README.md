# DemirPHP field validator, modelled in Dafny

This project models the fluent field validator of DemirPHP
(`src/DemirPHP/Validation.php`, class `DemirPHP\Validation`). The validator
keeps one state: the input array `$fields`, a cursor `$field` naming the
current field with an optional label `$title`, and the error array
`$errors`. `field()` moves the cursor. Each check (`required`, `empty`,
`email`, `url`, `ip`, `float`, `max`, `min`, `time`, `same`, `alpha`,
`upper`, `lower`, `alnum`, `numeric`) tests the current field's value. When
the value is rejected, the check renders a message with `sprintf` and stores
it at `$errors[$field]`, replacing any earlier message for that field.
`valid`, `getError`, `getErrors` and `getErrorsAsString` read the errors.

Files and modules:

- `wrappers.dfy` (`Wrappers`): `Option`, which stands for PHP's `false`/`null`
  where the validator uses them as "no value".
- `php.dfy` (`Php`): PHP's `empty()` on strings (`""` and `"0"`), `sprintf`
  restricted to `%s`, and the decimal rendering of an integer argument.
- `error_sink.dfy` (`ErrorSink`): the error array as an insertion-ordered
  sequence of (key, message) entries with distinct keys. It covers keyed
  assignment (`Put`), lookup, and the `<br>`-joined rendering with its
  inverse.
- `validation.dfy` (`DemirPHP`): the message table, label and template
  choice, one failure predicate per check, and the class `Validation`. Its
  fields are `fields`, `errors`, `cur` and `title`, and it has one method
  per public operation.

Each check method's `ensures` gives the new `errors` as `Outcome`: either
`Put(old(errors), cur, message)` when the check's failure predicate holds, or
the old errors otherwise. Because each method has `modifies this`errors`,
`fields`, `cur` and `title` do not change. The lemmas about `Put` (position
kept, other keys untouched) and about the failure predicates (guards,
bounds, `same`) state what the checks promise.

`LastFailingCheckWins` in `validation.dfy` is a small usage scenario built
from the method contracts alone. Two failing checks on one field leave the
later message, at the field's first position. A `required` on a second,
unset field then adds an entry after it.

Behaviour worth noting:

- Every check other than `required` and `empty` lets an unset or empty
  field through (`hasField()` guard). Such a field does not fail them.
- `getErrorsAsString()` puts `<br>` after every message, including the
  last one. It returns `null` when there are no errors.
- `same` shows the raw key of the other field, not its label, as the second
  argument. The default `same` message has only one `%s`, so it does not
  show the other field at all.
- Errors are never cleared. `fields()` replaces only the input.

## Model

| member | source | states |
|---|---|---|
| DemirPHP.Validation.constructor | src/DemirPHP/Validation.php:18-33 | the initial state: no input, no errors, cursor on the null key (read as ""), no label |
| DemirPHP.Validation.Fields | src/DemirPHP/Validation.php:60-64 | `fields(...)` replaces the input and leaves errors, cursor and label unchanged |
| DemirPHP.Validation.Field | src/DemirPHP/Validation.php:71-80 | `field(name, title)` sets the cursor, and the label becomes exactly the given title (none when omitted), so an earlier label never carries over |
| DemirPHP.Validation.GetField | src/DemirPHP/Validation.php:85-88 | the current value, or none exactly when `required` would fail |
| DemirPHP.Validation.HasField | src/DemirPHP/Validation.php:93-96 | the guard holds iff a value is set and is not PHP-empty, i.e. iff neither `required` nor `empty` would fail |
| DemirPHP.Validation.Report | src/DemirPHP/Validation.php:105-108 | the write shared by all checks: `errors` becomes `Put(errors, cur, rendered message)` and keeps distinct keys |
| DemirPHP.Validation.Required | src/DemirPHP/Validation.php:102-111 | adds the `required` message at the current key iff the key is not set; otherwise errors are unchanged |
| DemirPHP.Validation.Empty | src/DemirPHP/Validation.php:117-126 | adds the `empty` message iff the key is set and its value is `""` or `"0"`; an unset key is not flagged |
| DemirPHP.Validation.Email | src/DemirPHP/Validation.php:132-141 | adds the `email` message iff the guard holds and the e-mail filter rejects the value |
| DemirPHP.Validation.Url | src/DemirPHP/Validation.php:147-156 | adds the `url` message iff the guard holds and the URL filter rejects the value |
| DemirPHP.Validation.Ip | src/DemirPHP/Validation.php:162-171 | adds the `ip` message iff the guard holds and the IP filter rejects the value |
| DemirPHP.Validation.Float | src/DemirPHP/Validation.php:177-186 | adds the `float` message iff the guard holds and the value does not parse as a float (corrected, see Findings) |
| DemirPHP.Validation.FloatAsWritten | src/DemirPHP/Validation.php:177-186 | the `float` check as the code has it: adds the `float` message iff the guard holds and the value does not parse or parses to zero |
| DemirPHP.Validation.Max | src/DemirPHP/Validation.php:193-202 | adds the `max` message, with the bound (default 255) as second argument, iff the guard holds and the value is longer than the bound |
| DemirPHP.Validation.Min | src/DemirPHP/Validation.php:209-218 | adds the `min` message, with the bound (default 3) as second argument, iff the guard holds and the value is shorter than the bound |
| DemirPHP.Validation.Time | src/DemirPHP/Validation.php:224-234 | adds the `time` message iff the guard holds and date parsing reports errors |
| DemirPHP.Validation.Same | src/DemirPHP/Validation.php:241-250 | adds the `same` message, with the raw other key as second argument, iff the guard holds and the other key is unset or holds a different value |
| DemirPHP.Validation.Alpha | src/DemirPHP/Validation.php:256-265 | adds the `alpha` message iff the guard holds and the value is not all ASCII letters |
| DemirPHP.Validation.Upper | src/DemirPHP/Validation.php:271-280 | adds the `upper` message iff the guard holds and the value is not all ASCII upper-case letters |
| DemirPHP.Validation.Lower | src/DemirPHP/Validation.php:286-295 | adds the `lower` message iff the guard holds and the value is not all ASCII lower-case letters |
| DemirPHP.Validation.Alnum | src/DemirPHP/Validation.php:301-310 | adds the `alnum` message iff the guard holds and the value is not all ASCII letters and digits |
| DemirPHP.Validation.Numeric | src/DemirPHP/Validation.php:316-325 | adds the `numeric` message iff the guard holds and `is_numeric` rejects the value |
| DemirPHP.Validation.Valid | src/DemirPHP/Validation.php:330-333 | `valid()` is true iff `getError` finds no message for any key |
| DemirPHP.Validation.GetError | src/DemirPHP/Validation.php:339-342 | returns a message iff the key is stored, and the message is the one stored under that key; otherwise `false` |
| DemirPHP.Validation.GetErrors | src/DemirPHP/Validation.php:347-350 | returns every stored entry in insertion order (same keys, same messages), with distinct keys, each entry being what `getError` returns for its key |
| DemirPHP.Validation.GetErrorsAsString | src/DemirPHP/Validation.php:355-364 | the loop returns `null` without errors, else every message followed by `<br>` in key insertion order |
| ErrorSink.Put | src/DemirPHP/Validation.php:105 | `$errors[$field] = …` leaves the new (key, message) pair in the store |
| ErrorSink.JoinBr | src/DemirPHP/Validation.php:359-361 | the joined string is empty iff there are no messages, and has at least one `<br>` worth of characters per message |
| ErrorSink.Lookup | src/DemirPHP/Validation.php:341 | a key is found iff it is stored, and what is found is stored under that key |
| ErrorSink.PutAt | src/DemirPHP/Validation.php:105 | a keyed write changes only that key's entry, keeps every position, and appends a new key last |
| ErrorSink.PutKeepsUnique | src/DemirPHP/Validation.php:105 | a keyed write keeps the keys distinct |
| ErrorSink.LookupPut | src/DemirPHP/Validation.php:105 | after the write the key holds the new message (last write wins) and every other key holds what it held |
| ErrorSink.LookupAll | src/DemirPHP/Validation.php:347-350 | with distinct keys, looking up an entry's key finds that entry's message |
| ErrorSink.JoinBrSnoc | src/DemirPHP/Validation.php:359-361 | appending a message to the list appends it and `<br>` to the joined string |
| ErrorSink.FirstBrAfter | src/DemirPHP/Validation.php:360 | the first `<br>` after a message without `<br>` is the separator that follows it |
| ErrorSink.SplitJoinBr | src/DemirPHP/Validation.php:355-364 | splitting the joined string at `<br>` gives back the messages in order, when no message contains `<br>` |
| Php.PhpEmpty | src/DemirPHP/Validation.php:95 | a string is PHP-empty iff it has at most one character and that character is `0` |
| Php.Format | src/DemirPHP/Validation.php:105-108 | `sprintf` with a template without `%` returns the template unchanged |
| Php.IntToString | src/DemirPHP/Validation.php:198 | an integer prints as a leading `-` exactly when negative, followed by decimal digits |
| Php.PlainPrefix | src/DemirPHP/Validation.php:105-108 | `sprintf` copies a prefix without `%` unchanged, and the prefix adds no directive |
| Php.LeadingHole | src/DemirPHP/Validation.php:105-108 | a leading `%s` takes exactly the first argument |
| Php.OneHoleTemplate | src/DemirPHP/Validation.php:105-108 | `%s<text>` is a valid template for one argument and renders as the argument followed by the text |
| Php.TwoHoleTemplate | src/DemirPHP/Validation.php:196-199 | `%s<text>%s<text>` is a valid template for two arguments and renders them in order |
| Php.NatToString | src/DemirPHP/Validation.php:198 | a bound prints as a non-empty run of decimal digits with no leading zero |
| Php.NatToStringRoundTrip | src/DemirPHP/Validation.php:198 | the printed digits read back as the number |
| Php.IntToStringRoundTrip | src/DemirPHP/Validation.php:196-199 | the bound printed into a `min`/`max` message, negative ones included, reads back as the bound |
| DemirPHP.DefaultTemplate | src/DemirPHP/Validation.php:38-54 | every default message is a valid template for its check's arguments, with one `%s` per argument except that `same` has no `%s` for the other key |
| DemirPHP.WordingPlain | src/DemirPHP/Validation.php:38-54 | no default message text contains a `%` besides its placeholders, and only `min` and `max` have a second placeholder |
| DemirPHP.DefaultMessage | src/DemirPHP/Validation.php:38-54 | every default message is a valid template for its check's arguments and renders as the label followed by the wording (with the bound inside for `min`/`max`) |
| DemirPHP.FalsyMessageUsesDefault | src/DemirPHP/Validation.php:106 | a custom message `""` or `"0"` stores the same text as no custom message |
| DemirPHP.TitleShownAsKey | src/DemirPHP/Validation.php:107 | a truthy title shows in the message exactly where the key would show without a title |
| DemirPHP.FalsyTitleShowsKey | src/DemirPHP/Validation.php:107 | a title `""` or `"0"` is ignored and the key shows instead |
| DemirPHP.ChosenTemplateFits | src/DemirPHP/Validation.php:106 | the chosen template is always valid for the check's arguments |
| DemirPHP.RenderDefault | src/DemirPHP/Validation.php:105-108 | with no custom message the stored text is the resolved label followed by the default wording |
| DemirPHP.GuardPartition | src/DemirPHP/Validation.php:93-96 | for every key exactly one holds: `required` fails, `empty` fails, or the guard lets the value through |
| DemirPHP.GuardedChecksSkipUnsetOrEmpty | src/DemirPHP/Validation.php:134 | an unset or empty field passes every guarded check, whatever that check's predicate says |
| DemirPHP.LengthBounds | src/DemirPHP/Validation.php:193-218 | `max(n)` fails iff present and longer than n, `min(n)` iff present and shorter than n, so length n passes both |
| DemirPHP.SameSymmetric | src/DemirPHP/Validation.php:241-250 | with both fields present, `same` gives the same verdict from either side |
| DemirPHP.SameUnsetOther | src/DemirPHP/Validation.php:243 | `same` against an unset field fails for every present value |
| DemirPHP.CtypeAlpha | src/DemirPHP/Validation.php:258 | a value `ctype_alpha` accepts is also accepted by `ctype_alnum` |
| DemirPHP.CtypeUpper | src/DemirPHP/Validation.php:273 | a value `ctype_upper` accepts is also accepted by `ctype_alpha` |
| DemirPHP.CtypeLower | src/DemirPHP/Validation.php:288 | a value `ctype_lower` accepts is also accepted by `ctype_alpha` |
| DemirPHP.CtypeAlnum | src/DemirPHP/Validation.php:303 | `ctype_alnum` accepts every non-empty run of digits and never accepts `""` |
| DemirPHP.FloatFailsAsWritten | src/DemirPHP/Validation.php:179 | the written `float` test fails only present values, and fails every present value the corrected test fails |
| DemirPHP.CtypeNesting | src/DemirPHP/Validation.php:256-310 | upper or lower implies alpha implies alnum, and no value is both upper and lower |
| DemirPHP.FloatZeroRejected | src/DemirPHP/Validation.php:179 | the written `float` check rejects `"0.0"`, which parses as 0.0; the corrected check accepts it |
| DemirPHP.FloatIntended | src/DemirPHP/Validation.php:177-186 | the corrected `float` check rejects exactly present values that do not parse, and differs from the written one only on values that parse to zero |

## Left out

- `filter_var` (e-mail, URL, IP, float), `is_numeric` and `date_parse` are library calls whose definitions are not in the code. The check methods take them as function parameters: `isEmail`, `isUrl`, `isIp`, `parseFloat`, `isNumeric` and `parsesAsDate`.
- `time` calls `date_parse` before its guard. That call has no effect on the state and is not modelled.
- `ctype_alpha`, `ctype_upper`, `ctype_lower` and `ctype_alnum` are given their C-locale definitions: a non-empty string of ASCII characters of the class.
- UTF-8 decoding by `mb_strlen`: a value is a sequence of code points and its length is `|s|`.
- `sprintf` directives other than `%s` (`%d`, `%%`, …) in a caller's message, and too few arguments for its placeholders (PHP 8 raises ArgumentCountError there). Each check method requires `MessageFits`, that is, a custom message with only `%s` directives and no more of them than the check passes.
- The static state, the fluent `return new self` chaining and the public `$messages` table, which a caller could change: the model uses one object and a constant message table.
- Values are strings only. PHP arrays may also hold `null`, which `isset` treats as unset, as well as integers and arrays, and PHP turns numeric string keys into integer keys. None of this is modelled.
- DemirPHP.Validation.Float: rejects only values that do not parse, not the parsed zero the code also rejects (see Findings).

## Findings

| source | as written | input that shows it | evidently intended | confidence | as-written member | corrected member |
|---|---|---|---|---|---|---|
| src/DemirPHP/Validation.php:179 | `!filter_var($v, FILTER_VALIDATE_FLOAT)` also fails when the value parses to 0.0, because 0.0 is falsy | field value `"0.0"` (also `"00"`, `"-0"`, `"0e5"`; `"0"` is skipped by the guard) | reject only values that do not parse as a float, as the message "may only contain a decimal number" says | high for the logic, not executed | DemirPHP.FloatFailsAsWritten, DemirPHP.FloatZeroRejected | DemirPHP.Validation.Float, DemirPHP.FloatIntended |
