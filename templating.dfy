/**
 * Rule templates: `addTemplateReplacements` records `{name}` -> value
 * pairs, and `preProcessRules` rewrites every rule string with them.
 */
module Templating {
  import opened Wrappers
  import opened OrderedMaps
  import opened StrReplace

  /** The placeholder written in a rule string for the variable `name`. */
  function Token(name: string): string
  {
    "{" + name + "}"
  }

  /** A name that holds no brace, so that its token holds exactly one `{` and one `}`. */
  predicate BraceFree(s: string)
  {
    '{' !in s && '}' !in s
  }

  lemma TokenInjective(n1: string, n2: string)
    requires Token(n1) == Token(n2)
    ensures n1 == n2
  {
    assert n1 == Token(n1)[1..|n1| + 1];
  }

  /** A key of the replacement map: a placeholder token `{...}`. */
  predicate IsPlaceholder(t: string)
  {
    |t| >= 2 && t[0] == '{' && t[|t| - 1] == '}'
  }

  predicate AllPlaceholders(m: OrderedMap<string, string>)
  {
    forall i :: 0 <= i < |m| ==> IsPlaceholder(m[i].0)
  }

  /** The tokens written for the names of `vars`, in order. */
  function Tokens(vars: OrderedMap<string, string>): seq<string>
  {
    seq(|vars|, i requires 0 <= i < |vars| => Token(vars[i].0))
  }

  /**
   * `addTemplateReplacements($vars)`: for each name of `vars` in order,
   * `$templateReplacements['{'.$name.'}'] = $value`.
   */
  function AddReplacements(m: OrderedMap<string, string>, vars: OrderedMap<string, string>): OrderedMap<string, string>
    decreases |vars|
  {
    if vars == [] then m
    else
      var last := vars[|vars| - 1];
      Put(AddReplacements(m, vars[..|vars| - 1]), Token(last.0), last.1)
  }

  /**
   * Adding replacements keeps the map a PHP array of placeholders: keys stay
   * distinct, existing tokens keep their place and new ones are appended.
   */
  lemma {:induction false} AddReplacementsShape(m: OrderedMap<string, string>, vars: OrderedMap<string, string>)
    requires DistinctKeys(m)
    ensures DistinctKeys(AddReplacements(m, vars))
    ensures |m| <= |AddReplacements(m, vars)| && Keys(AddReplacements(m, vars))[..|m|] == Keys(m)
    ensures AllPlaceholders(m) ==> AllPlaceholders(AddReplacements(m, vars))
    decreases |vars|
  {
    if vars != [] {
      var init, last := vars[..|vars| - 1], vars[|vars| - 1];
      var prev := AddReplacements(m, init);
      AddReplacementsShape(m, init);
      PutKeys(prev, Token(last.0), last.1);
      var r := Put(prev, Token(last.0), last.1);
      assert Keys(r)[..|m|] == Keys(r)[..|prev|][..|m|];
      if AllPlaceholders(prev) {
        assert forall j :: 0 <= j < |r| ==> r[j].0 == Keys(r)[j];
        assert forall j :: 0 <= j < |prev| ==> Keys(r)[j] == prev[j].0;
        assert IsPlaceholder(Token(last.0));
      }
    }
  }

  /** Every name passed is then mapped, through its token, to its value. */
  lemma {:induction false} AddReplacementsSets(m: OrderedMap<string, string>, vars: OrderedMap<string, string>, i: int)
    requires DistinctKeys(m) && DistinctKeys(vars) && 0 <= i < |vars|
    ensures Lookup(AddReplacements(m, vars), Token(vars[i].0)) == Some(vars[i].1)
    decreases |vars|
  {
    var init, last := vars[..|vars| - 1], vars[|vars| - 1];
    var prev := AddReplacements(m, init);
    AddReplacementsShape(m, init);
    PutSpec(prev, Token(last.0), last.1);
    if i < |vars| - 1 {
      if Token(vars[i].0) == Token(last.0) {
        TokenInjective(vars[i].0, last.0);
      }
      assert init[i] == vars[i];
      AddReplacementsSets(m, init, i);
    }
  }

  /** Tokens not written for any name of `vars` keep their previous value (or absence). */
  lemma {:induction false} AddReplacementsKeeps(m: OrderedMap<string, string>, vars: OrderedMap<string, string>, t: string)
    requires DistinctKeys(m) && t !in Tokens(vars)
    ensures Lookup(AddReplacements(m, vars), t) == Lookup(m, t)
    decreases |vars|
  {
    if vars != [] {
      var init, last := vars[..|vars| - 1], vars[|vars| - 1];
      AddReplacementsShape(m, init);
      assert Tokens(vars)[|vars| - 1] == Token(last.0);
      PutSpec(AddReplacements(m, init), Token(last.0), last.1);
      assert forall j :: 0 <= j < |init| ==> Tokens(init)[j] == Tokens(vars)[j];
      AddReplacementsKeeps(m, init, t);
    }
  }

  /** Replacements accumulate across calls: two calls add what one call with both would. */
  lemma {:induction false} AddReplacementsAccumulate(m: OrderedMap<string, string>, a: OrderedMap<string, string>, b: OrderedMap<string, string>)
    ensures AddReplacements(AddReplacements(m, a), b) == AddReplacements(m, a + b)
    decreases |b|
  {
    if b == [] {
      assert a + b == a;
    } else {
      var ab := a + b;
      assert ab[..|ab| - 1] == a + b[..|b| - 1] && ab[|ab| - 1] == b[|b| - 1];
      AddReplacementsAccumulate(m, a, b[..|b| - 1]);
    }
  }

  /**
   * `preProcessRules($rules, $data)`: every rule string rewritten with the
   * replacement map; the field keys and their order are kept.
   */
  function TemplateRules(repls: OrderedMap<string, string>, rules: OrderedMap<string, string>): OrderedMap<string, string>
  {
    seq(|rules|, i requires 0 <= i < |rules| => (rules[i].0, ReplaceEach(repls, rules[i].1)))
  }

  /** The templated table has exactly the fields of the original, each with its rewritten rule. */
  lemma TemplateRulesLookup(repls: OrderedMap<string, string>, rules: OrderedMap<string, string>, field: string)
    requires DistinctKeys(rules)
    ensures Keys(TemplateRules(repls, rules)) == Keys(rules)
    ensures DistinctKeys(TemplateRules(repls, rules))
    ensures Lookup(TemplateRules(repls, rules), field)
         == match Lookup(rules, field)
            case None => None
            case Some(text) => Some(ReplaceEach(repls, text))
  {
    var r := TemplateRules(repls, rules);
    assert Keys(r) == Keys(rules);
    if field in Keys(rules) {
      var i :| 0 <= i < |rules| && rules[i].0 == field;
      LookupAt(rules, i);
      LookupAt(r, i);
    }
  }

  /** With no replacements recorded, preprocessing gives the rules back unchanged. */
  lemma TemplateRulesNoReplacements(rules: OrderedMap<string, string>)
    ensures TemplateRules([], rules) == rules
  {
  }

  /** A rule string without `{` holds no placeholder and goes through unchanged. */
  lemma TemplateRulesPlaceholderFree(repls: OrderedMap<string, string>, rules: OrderedMap<string, string>)
    requires AllPlaceholders(repls)
    requires forall i :: 0 <= i < |rules| ==> '{' !in rules[i].1
    ensures TemplateRules(repls, rules) == rules
  {
    forall i | 0 <= i < |rules|
      ensures ReplaceEach(repls, rules[i].1) == rules[i].1
    {
      forall j | 0 <= j < |repls|
        ensures !Occurs(rules[i].1, repls[j].0)
      {
        OpenerAbsent(rules[i].1, repls[j].0);
      }
      ReplaceEachAbsent(repls, rules[i].1);
    }
  }

  /**
   * Passes run in map order over the output of the previous pass: a value
   * holding a later token is itself rewritten, and the other order is not.
   */
  lemma LaterPassSeesEarlierValue(n1: string, n2: string, v: string)
    requires BraceFree(n1) && BraceFree(n2) && n1 != n2
    ensures ReplaceEach([(Token(n1), Token(n2)), (Token(n2), v)], Token(n1)) == v
    ensures ReplaceEach([(Token(n2), v), (Token(n1), Token(n2))], Token(n1)) == Token(n2)
  {
    var t1, t2 := Token(n1), Token(n2);
    ReplaceAllMatch([], t1, t2);
    ReplaceAllMatch([], t2, v);
    assert t1 + [] == t1 && t2 + [] == t2 && v + [] == v;
    assert ReplaceAll([], t1, t2) == [] && ReplaceAll([], t2, v) == [];
    var ps := [(t1, t2), (t2, v)];
    assert ps[1..] == [(t2, v)] && ps[1..][1..] == [];
    assert ReplaceEach(ps[1..], t2) == ReplaceEach([], ReplaceAll(t2, t2, v));
    var qs := [(t2, v), (t1, t2)];
    assert qs[1..] == [(t1, t2)] && qs[1..][1..] == [];
    TokenNotPrefix(n2, n1, []);
    assert t1 + [] == t1;
    ReplaceAllMismatch(t1, [], t2, v);
    assert ReplaceEach(qs, t1) == ReplaceEach(qs[1..], ReplaceAll(t1, t2, v));
    assert ReplaceEach(qs[1..], t1) == ReplaceEach([], ReplaceAll(t1, t1, t2));
  }

  /** Tokens of different brace-free names never start one another. */
  lemma TokenNotPrefix(n1: string, n2: string, rest: string)
    requires BraceFree(n1) && BraceFree(n2) && n1 != n2
    ensures !StartsWith(Token(n2) + rest, Token(n1))
  {
    var t1, s := Token(n1), Token(n2) + rest;
    if |t1| <= |s| {
      if |n1| < |n2| {
        assert s[..|t1|][|n1| + 1] == n2[|n1|] != '}' == t1[|n1| + 1];
      } else if |n1| > |n2| {
        assert s[..|t1|][|n2| + 1] == '}' != n1[|n2|] == t1[|n2| + 1];
      } else {
        assert s[..|t1|][1..|n1| + 1] == n2 != n1 == t1[1..|n1| + 1];
      }
    }
  }

  /** The first pass rewrites `{n1}` and steps over `{n2}`. */
  lemma FirstOfTwo(a: string, n1: string, c: string, n2: string, d: string, v1: string)
    requires BraceFree(n1) && BraceFree(n2) && n1 != n2
    requires '{' !in a && '{' !in c && '{' !in d
    ensures ReplaceAll(a + (Token(n1) + (c + (Token(n2) + d))), Token(n1), v1)
         == a + (v1 + (c + (Token(n2) + d)))
  {
    var t1, t2 := Token(n1), Token(n2);
    ReplaceFirst(a, t1, c + (t2 + d), v1);
    ReplaceAllSkip(c, t2 + d, t1, v1);
    TokenNotPrefix(n1, n2, d);
    assert t2[1..] == n2 + "}";
    ReplaceAllMismatch(t2, d, t1, v1);
    ReplaceAllSkip(d, [], t1, v1);
    assert d + [] == d;
  }

  /**
   * A rule `a{n1}c{n2}d` whose literal parts are brace-free, with a
   * brace-free first value: the two passes give `a v1 c v2 d`.
   */
  lemma TwoPlaceholders(a: string, n1: string, c: string, n2: string, d: string, v1: string, v2: string)
    requires BraceFree(n1) && BraceFree(n2) && n1 != n2
    requires '{' !in a && '{' !in c && '{' !in d && '{' !in v1
    ensures ReplaceEach([(Token(n1), v1), (Token(n2), v2)], a + (Token(n1) + (c + (Token(n2) + d))))
         == a + (v1 + (c + (v2 + d)))
  {
    var t1, t2 := Token(n1), Token(n2);
    var ps, s0 := [(t1, v1), (t2, v2)], a + (t1 + (c + (t2 + d)));
    var s1 := ReplaceAll(s0, t1, v1);
    assert ps[1..] == [(t2, v2)] && ps[1..][1..] == [];
    assert ReplaceEach(ps, s0) == ReplaceEach(ps[1..], s1);
    assert ReplaceEach(ps[1..], s1) == ReplaceEach([], ReplaceAll(s1, t2, v2));
    FirstOfTwo(a, n1, c, n2, d, v1);
    ReplaceAllSkip(a, v1 + (c + (t2 + d)), t2, v2);
    ReplaceAllSkip(v1, c + (t2 + d), t2, v2);
    ReplaceBetween(c, t2, d, v2);
  }

  /** A placeholder used any number of times in a rule is replaced at every use. */
  lemma RepeatedPlaceholder(parts: seq<string>, n: string, v: string)
    requires BraceFree(n)
    requires forall i :: 0 <= i < |parts| ==> '{' !in parts[i]
    ensures ReplaceEach([(Token(n), v)], Join(parts, Token(n))) == Join(parts, v)
  {
    assert Token(n)[0] == '{';
    ReplaceAllJoin(parts, Token(n), v);
  }

  lemma RuleTemplateExampleParts()
    ensures "required|min:" + (Token("min") + ("|max:" + (Token("max") + "|numeric")))
         == "required|min:{min}|max:{max}|numeric"
    ensures "required|min:" + ("1" + ("|max:" + ("10" + "|numeric")))
         == "required|min:1|max:10|numeric"
    ensures Token("min") == "{min}" && Token("max") == "{max}"
  {
  }

  /**
   * The rule `required|min:{min}|max:{max}|numeric` with `min` -> `1` and
   * `max` -> `10` reads `required|min:1|max:10|numeric`.
   */
  lemma RuleTemplateExample()
    ensures ReplaceEach([("{min}", "1"), ("{max}", "10")], "required|min:{min}|max:{max}|numeric")
         == "required|min:1|max:10|numeric"
  {
    TwoPlaceholders("required|min:", "min", "|max:", "max", "|numeric", "1", "10");
    RuleTemplateExampleParts();
  }
}
