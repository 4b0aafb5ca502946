/**
 * The validation orchestrator as a state machine over values: the state of
 * one validator instance, the collaborators it is wired to, and what each
 * public operation does to that state.
 */
module Orchestration {
  import opened Wrappers
  import opened OrderedMaps
  import opened StrReplace
  import opened Templating

  /** A field value of the validated object's data. */
  datatype Value = IntValue(i: int) | StringValue(s: string) | ListValue(items: seq<Value>)

  /** The flat field -> value array extracted from the validated object; a PHP array has no repeated key. */
  type Data = m: OrderedMap<string, Value> | DistinctKeys(m) witness []

  /** One group's rules: field -> rule string such as `required|numeric`. */
  type Rules = OrderedMap<string, string>

  /** All rules of a validator: group name -> that group's rules. */
  type RuleTable = OrderedMap<string, Rules>

  /** Failure messages keyed by field. */
  type Messages = map<string, seq<string>>

  /** Failed rules keyed by field, then by rule name, giving the rule's parameters. */
  type FailedRules = map<string, map<string, seq<string>>>

  /** What the rule engine reports for one evaluation: `fails()`, `failed()` and its messages. */
  datatype Verdict = Verdict(fails: bool, failed: FailedRules, messages: Messages)

  datatype Error =
    | GroupResolution(reason: string)  // raised by rule-group resolution, e.g. an unknown group
    | ValidationFailed                 // the ValidationException of assertIsValid
    | NoDataStore                      // an item accessor called while the data store is null

  /** The group name that selects no rules at all. */
  const EMPTY_GROUP: string := "empty"

  /**
   * What a concrete validator and its framework supply: data extraction and
   * group selection for the validated object (the subclass's abstract
   * methods), rule-group resolution, and the rule engine.
   */
  datatype Collaborators<-Obj> = Collaborators(
    objectData: Obj -> Data,
    validationGroup: Obj -> Option<string>,
    mergeByCondition: (RuleTable, Option<string>) -> Result<Rules, string>,
    engine: (Data, Rules) -> Verdict)

  /** Group resolution refuses a group the table does not have, unless it is the empty group. */
  ghost predicate RejectsUnknownGroups(merge: (RuleTable, Option<string>) -> Result<Rules, string>)
  {
    forall table: RuleTable, g: string ::
      g != EMPTY_GROUP && g !in Keys(table) ==> merge(table, Some(g)).Failure?
  }

  /** Group resolution maps the empty group, when the table does not define it, to no rules. */
  ghost predicate EmptyGroupSelectsNothing(merge: (RuleTable, Option<string>) -> Result<Rules, string>)
  {
    forall table: RuleTable ::
      EMPTY_GROUP !in Keys(table) ==> merge(table, Some(EMPTY_GROUP)) == Success([])
  }

  /** The fields of one validator instance. */
  datatype State = State(
    validationPassed: Option<bool>,  // None: never ran; Some(false): failed; Some(true): passed
    rules: RuleTable,
    templateReplacements: OrderedMap<string, string>,
    dataStorage: Option<Data>,
    failedMessages: Option<Messages>,
    failedRules: Option<FailedRules>)

  /** A freshly constructed validator with the given rule table. */
  function Initial(rules: RuleTable): State
  {
    State(None, rules, [], None, None, None)
  }

  /** The bookkeeping fields agree with the tri-state outcome. */
  predicate Consistent(s: State)
  {
    && DistinctKeys(s.templateReplacements)
    && AllPlaceholders(s.templateReplacements)
    && match s.validationPassed
       case None => s.dataStorage.None? && s.failedMessages.None? && s.failedRules.None?
       case Some(true) => s.dataStorage.Some? && s.failedMessages == Some(map[]) && s.failedRules == Some(map[])
       case Some(false) => s.dataStorage.None? && s.failedMessages.Some? && s.failedRules.Some?
  }

  /** Record the engine's verdict on `data`: a data store on success, a failure record otherwise. */
  function Record(s: State, data: Data, v: Verdict): State
  {
    if !v.fails then
      s.(validationPassed := Some(true), dataStorage := Some(data),
         failedMessages := Some(map[]), failedRules := Some(map[]))
    else
      s.(validationPassed := Some(false), dataStorage := None,
         failedMessages := Some(v.messages), failedRules := Some(v.failed))
  }

  /**
   * `isThisValid($object)`: extract the data, resolve the group's rules,
   * template them, evaluate, and record the outcome. A resolution error
   * propagates before anything is recorded.
   */
  function Run<Obj>(c: Collaborators<Obj>, s: State, obj: Obj): Result<State, Error>
  {
    var data := c.objectData(obj);
    match c.mergeByCondition(s.rules, c.validationGroup(obj))
    case Failure(reason) => Failure(GroupResolution(reason))
    case Success(merged) => Success(Record(s, data, c.engine(data, TemplateRules(s.templateReplacements, merged))))
  }

  /** The exception `assertIsValid` raises, or not, for a recorded state. */
  function Thrown(s: State): Outcome<Error>
  {
    if s.validationPassed == Some(true) then Pass else Fail(ValidationFailed)
  }

  /** `assertIsValid($object)`: run only when no outcome is recorded yet, then throw unless it passed. */
  function AssertValid<Obj>(c: Collaborators<Obj>, s: State, obj: Obj): (State, Outcome<Error>)
  {
    if s.validationPassed.None? then
      match Run(c, s, obj)
      case Failure(e) => (s, Fail(e))
      case Success(next) => (next, Thrown(next))
    else (s, Thrown(s))
  }

  /** `addTemplateReplacements($vars)`. */
  function AddTemplates(s: State, vars: OrderedMap<string, string>): State
  {
    s.(templateReplacements := AddReplacements(s.templateReplacements, vars))
  }

  /** `getIterator()`: the stored items. */
  function Items(s: State): Result<Data, Error>
  {
    match s.dataStorage
    case None => Failure(NoDataStore)
    case Some(d) => Success(d)
  }

  /** `offsetExists($offset)` and `__isset($name)`. */
  function ItemExists(s: State, key: string): Result<bool, Error>
  {
    match s.dataStorage
    case None => Failure(NoDataStore)
    case Some(d) => Success(Lookup(d, key).Some?)
  }

  /** `offsetGet($offset)`. */
  function ItemGet(s: State, key: string): Result<Option<Value>, Error>
  {
    match s.dataStorage
    case None => Failure(NoDataStore)
    case Some(d) => Success(Lookup(d, key))
  }

  /** `offsetSet($offset, $value)`. */
  function ItemSet(s: State, key: string, v: Value): Result<State, Error>
  {
    match s.dataStorage
    case None => Failure(NoDataStore)
    case Some(d) =>
      PutKeys(d, key, v);
      Success(s.(dataStorage := Some(Put(d, key, v))))
  }

  /** `offsetUnset($offset)` and `__unset($name)`. */
  function ItemUnset(s: State, key: string): Result<State, Error>
  {
    match s.dataStorage
    case None => Failure(NoDataStore)
    case Some(d) =>
      RemoveSpec(d, key);
      Success(s.(dataStorage := Some(Remove(d, key))))
  }

  /** A new validator has no recorded outcome, and every item accessor fails on its null store. */
  lemma InitialIsUnrun(rules: RuleTable, key: string, v: Value)
    ensures Consistent(Initial(rules)) && Initial(rules).validationPassed.None?
    ensures Initial(rules).rules == rules && Initial(rules).templateReplacements == []
    ensures Items(Initial(rules)) == Failure(NoDataStore)
    ensures ItemGet(Initial(rules), key) == Failure(NoDataStore)
    ensures ItemExists(Initial(rules), key) == Failure(NoDataStore)
    ensures ItemSet(Initial(rules), key, v) == Failure(NoDataStore)
    ensures ItemUnset(Initial(rules), key) == Failure(NoDataStore)
  {
  }

  /**
   * What one run records: the outcome is the engine's verdict on the
   * object's data and the templated rules of its group; a passing run keeps
   * the data and empty failure records, a failing one keeps the engine's
   * failure records and no data; rules and replacements are untouched.
   */
  lemma RunRecords<Obj>(c: Collaborators<Obj>, s: State, obj: Obj)
    ensures Run(c, s, obj).Failure? <==> c.mergeByCondition(s.rules, c.validationGroup(obj)).Failure?
    ensures Run(c, s, obj).Failure? ==>
      Run(c, s, obj).error == GroupResolution(c.mergeByCondition(s.rules, c.validationGroup(obj)).error)
    ensures Run(c, s, obj).Success? ==>
      var next := Run(c, s, obj).value;
      var data := c.objectData(obj);
      var v := c.engine(data, TemplateRules(s.templateReplacements, c.mergeByCondition(s.rules, c.validationGroup(obj)).value));
      && next.rules == s.rules
      && next.templateReplacements == s.templateReplacements
      && (next.validationPassed == Some(true) <==> !v.fails)
      && (next.validationPassed == Some(false) <==> v.fails)
      && (next.dataStorage.Some? <==> !v.fails)
      && (!v.fails ==> next.dataStorage == Some(data) && next.failedMessages == Some(map[]) && next.failedRules == Some(map[]))
      && (v.fails ==> next.failedMessages == Some(v.messages) && next.failedRules == Some(v.failed))
  {
  }

  /**
   * Each run overwrites the previous outcome: two states that differ only in
   * their recorded outcome and store run to the same state.
   */
  lemma RunForgetsHistory<Obj>(c: Collaborators<Obj>, s1: State, s2: State, obj: Obj)
    requires s1.rules == s2.rules && s1.templateReplacements == s2.templateReplacements
    ensures Run(c, s1, obj) == Run(c, s2, obj)
  {
  }

  /** A successful run leaves a consistent state with a recorded outcome. */
  lemma RunConsistent<Obj>(c: Collaborators<Obj>, s: State, obj: Obj)
    requires Consistent(s)
    ensures Run(c, s, obj).Success? ==>
      Consistent(Run(c, s, obj).value) && Run(c, s, obj).value.validationPassed.Some?
  {
  }

  /** Only the template map changes when replacements are added, and consistency is kept. */
  lemma AddTemplatesConsistent(s: State, vars: OrderedMap<string, string>)
    requires Consistent(s)
    ensures Consistent(AddTemplates(s, vars))
    ensures AddTemplates(s, vars).(templateReplacements := s.templateReplacements) == s
  {
    AddReplacementsShape(s.templateReplacements, vars);
  }

  /**
   * Replacements added before a run reach the engine: after adding
   * variables, each `{name}` token maps to its value, and the run's outcome
   * is the engine's verdict on a rule table with the group's keys in which
   * each rule has every replacement applied.
   */
  lemma AddedTemplatesReachEngine<Obj>(c: Collaborators<Obj>, s: State, vars: OrderedMap<string, string>,
                                       obj: Obj, merged: Rules, field: string)
    requires Consistent(s) && DistinctKeys(vars) && DistinctKeys(merged)
    requires c.mergeByCondition(s.rules, c.validationGroup(obj)) == Success(merged)
    ensures forall i :: 0 <= i < |vars| ==>
      Lookup(AddTemplates(s, vars).templateReplacements, Token(vars[i].0)) == Some(vars[i].1)
    ensures
      var t := AddTemplates(s, vars);
      var seen := TemplateRules(t.templateReplacements, merged);
      && Run(c, t, obj).Success?
      && Run(c, t, obj).value.validationPassed == Some(!c.engine(c.objectData(obj), seen).fails)
      && Keys(seen) == Keys(merged)
      && Lookup(seen, field)
         == match Lookup(merged, field)
            case None => None
            case Some(text) => Some(ReplaceEach(t.templateReplacements, text))
  {
    forall i | 0 <= i < |vars|
      ensures Lookup(AddTemplates(s, vars).templateReplacements, Token(vars[i].0)) == Some(vars[i].1)
    {
      AddReplacementsSets(s.templateReplacements, vars, i);
    }
    TemplateRulesLookup(AddTemplates(s, vars).templateReplacements, merged, field);
  }

  /** The item accessors work exactly when the last run passed. */
  lemma AccessorsNeedPass(s: State, key: string, v: Value)
    requires Consistent(s)
    ensures Items(s).Success? <==> s.validationPassed == Some(true)
    ensures ItemGet(s, key).Success? <==> s.validationPassed == Some(true)
    ensures ItemExists(s, key).Success? <==> s.validationPassed == Some(true)
    ensures ItemSet(s, key, v).Success? <==> s.validationPassed == Some(true)
    ensures ItemUnset(s, key).Success? <==> s.validationPassed == Some(true)
  {
  }

  /**
   * Writing an item through the validator stores it, leaves the other items
   * as they were and changes nothing but the store.
   */
  lemma ItemSetSpec(s: State, key: string, v: Value)
    requires Consistent(s) && s.dataStorage.Some?
    ensures ItemSet(s, key, v).Success?
    ensures Consistent(ItemSet(s, key, v).value)
    ensures ItemSet(s, key, v).value.(dataStorage := s.dataStorage) == s
    ensures DistinctKeys(ItemSet(s, key, v).value.dataStorage.value)
    ensures ItemGet(ItemSet(s, key, v).value, key) == Success(Some(v))
    ensures forall k :: k != key ==> ItemGet(ItemSet(s, key, v).value, k) == ItemGet(s, k)
  {
    PutSpec(s.dataStorage.value, key, v);
  }

  /**
   * Unsetting an item through the validator removes it, leaves the other
   * items as they were and changes nothing but the store.
   */
  lemma ItemUnsetSpec(s: State, key: string)
    requires Consistent(s) && s.dataStorage.Some?
    ensures ItemUnset(s, key).Success?
    ensures Consistent(ItemUnset(s, key).value)
    ensures ItemUnset(s, key).value.(dataStorage := s.dataStorage) == s
    ensures DistinctKeys(ItemUnset(s, key).value.dataStorage.value)
    ensures ItemExists(ItemUnset(s, key).value, key) == Success(false)
    ensures forall k :: k != key ==> ItemGet(ItemUnset(s, key).value, k) == ItemGet(s, k)
  {
    RemoveSpec(s.dataStorage.value, key);
  }

  /**
   * `assertIsValid` throws the validation exception exactly when the
   * recorded outcome is a failure, returns normally exactly when it is a
   * pass, and otherwise propagates a group-resolution error without
   * recording anything.
   */
  lemma AssertThrowsIffFailed<Obj>(c: Collaborators<Obj>, s: State, obj: Obj)
    ensures AssertValid(c, s, obj).1 == Pass <==> AssertValid(c, s, obj).0.validationPassed == Some(true)
    ensures AssertValid(c, s, obj).1 == Fail(ValidationFailed) <==> AssertValid(c, s, obj).0.validationPassed == Some(false)
    ensures AssertValid(c, s, obj).1.Fail? && AssertValid(c, s, obj).1.error != ValidationFailed ==>
      AssertValid(c, s, obj).1.error.GroupResolution? && AssertValid(c, s, obj).0 == s && s.validationPassed.None?
  {
    if s.validationPassed.None? {
      RunRecords(c, s, obj);
      match Run(c, s, obj)
      case Failure(e) =>
        assert AssertValid(c, s, obj) == (s, Fail(e));
      case Success(next) =>
        assert AssertValid(c, s, obj) == (next, Thrown(next));
    } else if s.validationPassed.value {
      assert AssertValid(c, s, obj) == (s, Pass);
    } else {
      assert AssertValid(c, s, obj) == (s, Fail(ValidationFailed));
    }
  }

  /**
   * Once an outcome is recorded, `assertIsValid` neither re-runs nor looks
   * at its argument: any object gets the recorded answer and the state stays.
   */
  lemma AssertUsesRecordedOutcome<Obj>(c: Collaborators<Obj>, s: State, obj1: Obj, obj2: Obj)
    requires s.validationPassed.Some?
    ensures AssertValid(c, s, obj1) == AssertValid(c, s, obj2)
    ensures AssertValid(c, s, obj1).0 == s
  {
  }

  /** A second `assertIsValid` after one that recorded an outcome repeats it without running again. */
  lemma AssertRunsAtMostOnce<Obj>(c: Collaborators<Obj>, s: State, obj1: Obj, obj2: Obj)
    requires AssertValid(c, s, obj1).0.validationPassed.Some?
    ensures AssertValid(c, AssertValid(c, s, obj1).0, obj2) == AssertValid(c, s, obj1)
  {
    var (next, out) := AssertValid(c, s, obj1);
    AssertUsesRecordedOutcome(c, next, obj2, obj2);
    AssertThrowsIffFailed(c, s, obj1);
  }

  /** Naming a group the rule table does not have fails before anything is evaluated or recorded. */
  lemma UnknownGroupRejected<Obj>(c: Collaborators<Obj>, s: State, obj: Obj, g: string)
    requires RejectsUnknownGroups(c.mergeByCondition)
    requires c.validationGroup(obj) == Some(g) && g != EMPTY_GROUP && g !in Keys(s.rules)
    ensures Run(c, s, obj).Failure? && Run(c, s, obj).error.GroupResolution?
    ensures s.validationPassed.None? ==> AssertValid(c, s, obj).0 == s && AssertValid(c, s, obj).1.Fail?
  {
    assert c.mergeByCondition(s.rules, Some(g)).Failure?;
  }

  /**
   * The empty group selects no rules, so empty input validates, provided the
   * engine accepts empty data against no rules.
   */
  lemma EmptyGroupPasses<Obj>(c: Collaborators<Obj>, s: State, obj: Obj)
    requires EmptyGroupSelectsNothing(c.mergeByCondition)
    requires !c.engine([], []).fails
    requires c.validationGroup(obj) == Some(EMPTY_GROUP) && EMPTY_GROUP !in Keys(s.rules)
    requires c.objectData(obj) == []
    ensures Run(c, s, obj).Success?
    ensures Run(c, s, obj).value.validationPassed == Some(true)
    ensures Run(c, s, obj).value.dataStorage == Some([])
  {
    assert c.mergeByCondition(s.rules, Some(EMPTY_GROUP)) == Success([]);
    assert TemplateRules(s.templateReplacements, []) == [];
  }
}
