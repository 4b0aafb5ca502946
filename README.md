# laravel-validator: the validation orchestrator, modelled in Dafny

This project models `AbstractValidator`, the base class of fhteam/laravel-validator.
A concrete validator supplies two things: how to extract a data array from the validated object, and which rule group applies to it.
`AbstractValidator` does the rest:

- it resolves the group's rules from its rule table;
- it substitutes template variables (`{min}`, `{max}`, ...) into the rule strings;
- it hands data and rules to Laravel's validation engine;
- it records a tri-state outcome: never ran, failed, or passed;
- on a pass it keeps the validated data in a store behind `ArrayAccess`/`IteratorAggregate`, and on a failure it keeps the engine's failure records.

Modules, one per file:

- `Wrappers` (`wrappers.dfy`): `Option`, `Result` and `Outcome`. `Outcome` is a returned-normally/threw result.
- `OrderedMaps` (`ordered_maps.dfy`): PHP arrays as ordered maps. Writing an existing key overwrites it in place, and a new key is appended.
- `StrReplace` (`str_replace.dfy`): PHP `str_replace` on strings.
  - With one search string, all non-overlapping occurrences are replaced, scanning left to right.
  - With arrays, the pairs are applied in order, each on the previous result.
  - An empty search string is skipped.
- `Templating` (`templating.dfy`): the template replacement map built by `addTemplateReplacements`, and the rule rewriting done by `preProcessRules`, as functions with their properties.
- `Orchestration` (`orchestration.dfy`): the validator's fields as a `State` value, and each public operation as a transition on it. The collaborators are function-valued fields of `Collaborators`:
  - `getObjectData`;
  - `getValidationGroup`;
  - `Arr::mergeByCondition`;
  - the Laravel engine, as an oracle from (data, rules) to (fails, failed rules, messages).
- `Validation` (`abstract_validator.dfy`): the class `AbstractValidator`, whose fields are updated in place by its methods. Each method is proved against the matching transition of `Orchestration`, and the class invariant `Valid()` ties the fields to the outcome.

Where the code and the project's own description differ, the model follows the code:

- `isThisValid` always re-runs the engine and overwrites the previous outcome. Only `assertIsValid` reuses a recorded outcome.
- A passing run stores the whole extracted data array, not only the validated fields.
- `getMessageBag` and `getFailedRules` return null before any run, not empty collections.
- Replacements are applied in the order in which their tokens were first added. A replacement value that contains a later token is therefore rewritten again (`Templating.LaterPassSeesEarlierValue`).
- Item access while the store is null is a method call on null in PHP, which raises an `Error`. The model returns it as `Failure(NoDataStore)` rather than excluding it by a precondition. The tests expect an exception from item access after a failed run, but through a method (`getItem`) that this class does not have.

## Model

| member | source | states |
|---|---|---|
| Validation.AbstractValidator.constructor | src/AbstractValidator.php:83-86 | a new validator has never run: no outcome, no store, no failure records, no replacements |
| Validation.AbstractValidator.AddTemplateReplacements | src/AbstractValidator.php:146-153 | the loop writes each variable under its `{name}` token, giving the ordered-map result `AddReplacements`; the class invariant is kept |
| Validation.AbstractValidator.PreProcessRules | src/AbstractValidator.php:163-174 | the loop rewrites every rule string with the replacements, in map order; the result has exactly the keys of the input |
| Validation.AbstractValidator.IsThisValid | src/AbstractValidator.php:113-136 | always re-runs and makes the fields the state `Run` describes; returns the new outcome; a group-resolution error changes nothing |
| Validation.AbstractValidator.AssertIsValid | src/AbstractValidator.php:95-104 | runs only when no outcome is recorded, then fails with the validation exception unless the outcome is a pass |
| Validation.AbstractValidator.IsValidationPassed | src/AbstractValidator.php:186-189 | returns the tri-state outcome: null before any run |
| Validation.AbstractValidator.GetMessageBag | src/AbstractValidator.php:196-199 | returns the recorded failure messages, null before any run |
| Validation.AbstractValidator.GetFailedRules | src/AbstractValidator.php:206-209 | returns the recorded failed rules, null before any run |
| Validation.AbstractValidator.GetIterator | src/AbstractValidator.php:211-214 | the stored items, or the null-store error |
| Validation.AbstractValidator.OffsetExists | src/AbstractValidator.php:216-219 | whether the store has the key, or the null-store error |
| Validation.AbstractValidator.OffsetGet | src/AbstractValidator.php:221-224 | the stored value for the key, or the null-store error |
| Validation.AbstractValidator.OffsetSet | src/AbstractValidator.php:226-229 | writes the key into the store and changes no other field, or fails on a null store and changes nothing |
| Validation.AbstractValidator.OffsetUnset | src/AbstractValidator.php:231-234 | removes the key from the store and changes no other field, or fails on a null store and changes nothing |
| Orchestration.InitialIsUnrun | src/AbstractValidator.php:25 | a fresh validator has outcome null, and every item accessor fails on its null store |
| Orchestration.RunRecords | src/AbstractValidator.php:113-136 | the outcome is the negation of the engine's `fails()` on the object's data and the group's templated rules; a pass stores exactly the object's data and empty failure records; a failure stores no data and the engine's failed rules and messages; an unknown group fails with the resolution error |
| Orchestration.RunForgetsHistory | src/AbstractValidator.php:113-136 | the result of a run does not depend on any earlier outcome or store: every run overwrites them |
| Orchestration.RunConsistent | src/AbstractValidator.php:124-133 | after a run the store exists exactly when the outcome is a pass, and the failure records are empty on a pass |
| Orchestration.AddTemplatesConsistent | src/AbstractValidator.php:146-153 | adding replacements changes only the replacement map, and its keys stay distinct `{...}` tokens |
| Orchestration.AddedTemplatesReachEngine | src/AbstractValidator.php:117-122 | after adding variables, each token maps to its value, and the next run's outcome is the engine's verdict on a table with the group's keys in which each rule has every replacement applied |
| Orchestration.AccessorsNeedPass | src/AbstractValidator.php:211-244 | every item accessor succeeds if and only if the last run passed: it fails before any run and after a failed run |
| Orchestration.ItemSetSpec | src/AbstractValidator.php:226-229 | after a write the key reads back the written value, other keys read as before, and only the store changes |
| Orchestration.ItemUnsetSpec | src/AbstractValidator.php:231-234 | after an unset the key is absent, other keys read as before, and only the store changes |
| Orchestration.AssertThrowsIffFailed | src/AbstractValidator.php:95-104 | `assertIsValid` returns normally if and only if the resulting outcome is a pass, and throws the validation exception if and only if it is a failure; any other error is a resolution error that records nothing |
| Orchestration.AssertUsesRecordedOutcome | src/AbstractValidator.php:97-99 | with an outcome recorded, `assertIsValid` gives the same answer for any object and changes nothing |
| Orchestration.AssertRunsAtMostOnce | src/AbstractValidator.php:95-104 | a second `assertIsValid` after one that recorded an outcome repeats its answer without running again |
| Orchestration.UnknownGroupRejected | tests/src/Validator/AbstractValidatorTest.php:146-154 | a group the rule table lacks (other than `empty`) makes validation fail with a resolution error before any outcome is recorded |
| Orchestration.EmptyGroupPasses | tests/src/Validator/AbstractValidatorTest.php:156-160 | the `empty` group with empty input validates as a pass and stores the empty data |
| Templating.TokenInjective | src/AbstractValidator.php:149 | distinct variable names give distinct `{name}` tokens |
| Templating.AddReplacementsSets | src/AbstractValidator.php:146-153 | after adding variables, the token of every passed name maps to its value |
| Templating.AddReplacementsKeeps | src/AbstractValidator.php:146-153 | the entries of tokens not passed are unchanged |
| Templating.AddReplacementsAccumulate | src/AbstractValidator.php:146-153 | two calls accumulate: they equal one call with both variable lists in order |
| Templating.AddReplacementsShape | src/AbstractValidator.php:146-153 | existing tokens keep their position (a re-added name is overwritten in place), keys stay distinct, and all keys are `{...}` tokens |
| Templating.TemplateRulesLookup | src/AbstractValidator.php:163-174 | the rewritten table has the same keys in the same order, and each field's rule is its original rule with every replacement applied in map order |
| Templating.TemplateRulesNoReplacements | src/AbstractValidator.php:163-174 | with no replacements the rules are unchanged |
| Templating.TemplateRulesPlaceholderFree | src/AbstractValidator.php:163-174 | rules that contain no `{` are unchanged |
| Templating.LaterPassSeesEarlierValue | src/AbstractValidator.php:166-170 | substitution is order-dependent: a value that contains a later token is rewritten by the later pair, but not by an earlier one |
| Templating.TwoPlaceholders | src/AbstractValidator.php:166-170 | two distinct tokens in a brace-free rule are each replaced by their values |
| Templating.RepeatedPlaceholder | src/AbstractValidator.php:166-170 | a placeholder used any number of times in a brace-free rule is replaced at every use |
| Templating.RuleTemplateExample | tests/src/Validator/AbstractValidatorTest.php:111-117 | the rule `required` / `min:{min}` / `max:{max}` / `numeric` (joined by bars) with `min` = 1 and `max` = 10 becomes `required` / `min:1` / `max:10` / `numeric` |
| StrReplace.ReplaceAllAbsent | src/AbstractValidator.php:166-170 | a string that does not contain the search string is unchanged |
| StrReplace.ReplaceAllSelf | src/AbstractValidator.php:166-170 | replacing a string by itself changes nothing |
| StrReplace.ReplaceBetween | src/AbstractValidator.php:166-170 | a single occurrence, with no further opener after it, is replaced and the text around it is kept |
| StrReplace.ReplaceAllJoin | src/AbstractValidator.php:166-170 | every occurrence is replaced, however often the search string repeats: text whose stretches between occurrences lack its first character has each occurrence replaced |
| StrReplace.ReplaceEachAbsent | src/AbstractValidator.php:166-170 | if no search string occurs, the array form changes nothing |
| StrReplace.ReplaceEachAppend | src/AbstractValidator.php:166-170 | applying a concatenated pair list equals applying the first list, then the second |
| OrderedMaps.PutSpec | src/AbstractValidator.php:149 | an array write makes the key read back the value, leaves other keys as they were, and keeps keys distinct |
| OrderedMaps.RemoveSpec | src/AbstractValidator.php:231-234 | an unset makes the key absent, leaves other keys as they were, and keeps keys distinct |

## Left out

- The Laravel validation factory and rule engine (`make`, `fails()`, `failed()`, `getMessageBag()`) are an oracle, a function field of `Collaborators`. Rule semantics such as `min`, `max`, `numeric`, `sometimes` hooks and the `numeric[]` syntax are not modelled.
- Every engine call is total in the model. In PHP, `make()` or `fails()` may throw, for example on the `numeric[]` syntax. The assignment of the outcome is then never reached, and every field keeps its previous value. That path is not modelled.
- `Arr::mergeByCondition` is not part of this model. It is a function field that may return an error. Its two behaviours shown by the tests are stated as the predicates `RejectsUnknownGroups` and `EmptyGroupSelectsNothing`, and lemmas assume them as preconditions.
- `getObjectData` and `getValidationGroup` are the subclass's abstract methods. They are function fields. A group is `Option<string>`, where None is the null group.
- `ArrayDataStorage` is not part of this model. The store is an ordered map from field name to value with no repeated key (the type `Data`, as for any PHP array). Its key casing (`keyCase`), and any difference between its `__isset`/`offsetExists` and `__unset`/`offsetUnset`, are not modelled.
- `__isset` and `__unset` delegate to the store exactly as `offsetExists` and `offsetUnset` do in this model. They are covered by `OffsetExists` and `OffsetUnset` rather than written out a second time.
- Validation.AbstractValidator.OffsetSet: a null offset (`$validator[] = $v`) is not modelled, because keys are strings here and what the store does with a null offset is not part of this model.
- Template values are strings. PHP's conversion of integer values (`'min' => 1`) to strings inside `str_replace` is not modelled.
- Nested rule arrays are not modelled. A rule is one string per field.
- Not modelled as presentation, debugging or framework glue: `MessageBag` construction (messages are a map from field to strings), `__toString`, `__debugInfo`, `__invoke` (a direct call of `isThisValid`) and the empty `setupValidator` hook.
- Validation.AbstractValidator.AddTemplateReplacements: does not return the validator (the fluent `return $this`), because a method's result would only repeat the receiver.
- `EloquentModelValidator`, the HTTP middleware and the test-only API (`setRules`, `setGroup`, `getItem`, `getItems`) are outside the modelled class.
- Exceptions are results: `Outcome.Fail(ValidationFailed)` for `ValidationException`, `GroupResolution` for whatever group resolution throws, and `NoDataStore` for a call on the null store.
