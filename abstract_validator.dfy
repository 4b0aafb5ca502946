/**
 * The validator object itself: its fields are updated in place by the
 * validation methods, and each method is proved against the state
 * transition of the Orchestration module.
 */
module Validation {
  import opened Wrappers
  import opened OrderedMaps
  import opened StrReplace
  import opened Templating
  import opened Orchestration

  class AbstractValidator<Obj> {
    /** The validator factory together with the subclass's data and group extraction. */
    const collaborators: Collaborators<Obj>

    var validationPassed: Option<bool>
    var rules: RuleTable
    var dataStorage: Option<Data>
    var templateReplacements: OrderedMap<string, string>
    var failedMessages: Option<Messages>
    var failedRules: Option<FailedRules>

    /** The fields as a value of the state machine. */
    function Snapshot(): State
      reads this
    {
      State(validationPassed, rules, templateReplacements, dataStorage, failedMessages, failedRules)
    }

    ghost predicate Valid()
      reads this
    {
      Consistent(Snapshot())
    }

    /** The constructor; `rules` is the rule table a concrete validator declares. */
    constructor (collaborators: Collaborators<Obj>, rules: RuleTable)
      ensures this.collaborators == collaborators
      ensures Snapshot() == Initial(rules)
      ensures Valid()
    {
      this.collaborators := collaborators;
      validationPassed := None;
      this.rules := rules;
      dataStorage := None;
      templateReplacements := [];
      failedMessages := None;
      failedRules := None;
    }

    /** Store each variable under its `{name}` token, overwriting a token already present. */
    method AddTemplateReplacements(vars: OrderedMap<string, string>)
      requires Valid()
      modifies this`templateReplacements
      ensures Valid()
      ensures templateReplacements == AddReplacements(old(templateReplacements), vars)
    {
      ghost var start := templateReplacements;
      var i := 0;
      while i < |vars|
        invariant 0 <= i <= |vars|
        invariant templateReplacements == AddReplacements(start, vars[..i])
      {
        var (name, value) := vars[i];
        templateReplacements := Put(templateReplacements, Token(name), value);
        assert vars[..i + 1][..i] == vars[..i];
        i := i + 1;
      }
      assert vars[..|vars|] == vars;
      AddTemplatesConsistent(old(Snapshot()), vars);
    }

    /**
     * Substitute the template replacements into every rule string; the rule
     * data is passed along but not used.
     */
    method PreProcessRules(rules: Rules, data: Data) returns (processed: Rules)
      ensures processed == TemplateRules(templateReplacements, rules)
      ensures Keys(processed) == Keys(rules)
    {
      processed := rules;
      var i := 0;
      while i < |processed|
        invariant |processed| == |rules| && 0 <= i <= |rules|
        invariant forall j :: 0 <= j < i ==> processed[j] == (rules[j].0, ReplaceEach(templateReplacements, rules[j].1))
        invariant forall j :: i <= j < |rules| ==> processed[j] == rules[j]
      {
        var (key, text) := processed[i];
        processed := processed[i := (key, ReplaceEach(templateReplacements, text))];
        i := i + 1;
      }
    }

    /**
     * Validate `obj` afresh, overwriting any earlier outcome, and report
     * whether it passed; a group-resolution error leaves every field as it was.
     */
    method IsThisValid(obj: Obj) returns (r: Result<bool, Error>)
      requires Valid()
      modifies this
      ensures Valid()
      ensures r.Success? ==> validationPassed == Some(r.value)
      ensures match Run(collaborators, old(Snapshot()), obj)
              case Failure(e) => r == Failure(e) && Snapshot() == old(Snapshot())
              case Success(next) => r.Success? && Snapshot() == next
    {
      var objectData := collaborators.objectData(obj);
      var validationGroup := collaborators.validationGroup(obj);
      var merged := collaborators.mergeByCondition(rules, validationGroup);
      if merged.Failure? {
        return Failure(GroupResolution(merged.error));
      }
      var processed := PreProcessRules(merged.value, objectData);
      var verdict := collaborators.engine(objectData, processed);
      validationPassed := Some(!verdict.fails);
      if !verdict.fails {
        dataStorage := Some(objectData);
        failedMessages := Some(map[]);
        failedRules := Some(map[]);
      } else {
        failedMessages := Some(verdict.messages);
        failedRules := Some(verdict.failed);
        dataStorage := None;
      }
      return Success(!verdict.fails);
    }

    /**
     * Validate `obj` unless an outcome is already recorded, then fail with
     * `ValidationFailed` unless the recorded outcome is a pass.
     */
    method AssertIsValid(obj: Obj) returns (outcome: Outcome<Error>)
      requires Valid()
      modifies this
      ensures Valid()
      ensures (Snapshot(), outcome) == AssertValid(collaborators, old(Snapshot()), obj)
    {
      if validationPassed.None? {
        var r := IsThisValid(obj);
        if r.Failure? {
          return Fail(r.error);
        }
        validationPassed := Some(r.value);
      }
      if validationPassed != Some(true) {
        return Fail(ValidationFailed);
      }
      return Pass;
    }

    method IsValidationPassed() returns (r: Option<bool>)
      ensures r == validationPassed
    {
      return validationPassed;
    }

    method GetMessageBag() returns (r: Option<Messages>)
      ensures r == failedMessages
    {
      return failedMessages;
    }

    method GetFailedRules() returns (r: Option<FailedRules>)
      ensures r == failedRules
    {
      return failedRules;
    }

    method GetIterator() returns (r: Result<Data, Error>)
      ensures r == Items(Snapshot())
    {
      if dataStorage.None? {
        return Failure(NoDataStore);
      }
      return Success(dataStorage.value);
    }

    method OffsetExists(key: string) returns (r: Result<bool, Error>)
      ensures r == ItemExists(Snapshot(), key)
    {
      if dataStorage.None? {
        return Failure(NoDataStore);
      }
      return Success(Lookup(dataStorage.value, key).Some?);
    }

    method OffsetGet(key: string) returns (r: Result<Option<Value>, Error>)
      ensures r == ItemGet(Snapshot(), key)
    {
      if dataStorage.None? {
        return Failure(NoDataStore);
      }
      return Success(Lookup(dataStorage.value, key));
    }

    method OffsetSet(key: string, v: Value) returns (r: Outcome<Error>)
      requires Valid()
      modifies this`dataStorage
      ensures Valid()
      ensures match ItemSet(old(Snapshot()), key, v)
              case Failure(e) => r == Fail(e) && dataStorage == old(dataStorage)
              case Success(next) => r == Pass && Snapshot() == next
    {
      if dataStorage.None? {
        return Fail(NoDataStore);
      }
      PutKeys(dataStorage.value, key, v);
      dataStorage := Some(Put(dataStorage.value, key, v));
      return Pass;
    }

    method OffsetUnset(key: string) returns (r: Outcome<Error>)
      requires Valid()
      modifies this`dataStorage
      ensures Valid()
      ensures match ItemUnset(old(Snapshot()), key)
              case Failure(e) => r == Fail(e) && dataStorage == old(dataStorage)
              case Success(next) => r == Pass && Snapshot() == next
    {
      if dataStorage.None? {
        return Fail(NoDataStore);
      }
      RemoveSpec(dataStorage.value, key);
      dataStorage := Some(Remove(dataStorage.value, key));
      return Pass;
    }
  }
}
