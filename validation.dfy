/**
 * The validators handle_open_file runs on the `filters` and `choices`
 * options before it accepts a call: check_value_type, check_filter,
 * check_filters, check_choice and check_choices. Each verdict function states
 * what a validator decides, including the exact error message; each method is
 * the validator's loop, proved to compute that verdict.
 */
module Validation {
  import opened GVariant
  import opened Options

  /** The gboolean + GError result of a validator. */
  datatype Outcome = Pass | Fail(message: string)

  /** g_prefix_error on a failure; a pass stays a pass. */
  function Prefix(prefix: string, o: Outcome): Outcome {
    match o
    case Pass => Pass
    case Fail(m) => Fail(prefix + m)
  }

  /** The outcome of checking the items in order and stopping at the first failure. */
  function FirstFailure<T>(xs: seq<T>, check: T -> Outcome): (r: Outcome)
    ensures r.Pass? <==> forall i :: 0 <= i < |xs| ==> check(xs[i]).Pass?
  {
    if xs == [] then Pass
    else if check(xs[0]).Fail? then check(xs[0])
    else FirstFailure(xs[1..], check)
  }

  /** The first failing item decides the outcome. */
  lemma {:induction false} FirstFailureAt<T>(xs: seq<T>, check: T -> Outcome, k: nat)
    requires k < |xs| && check(xs[k]).Fail?
    requires forall i :: 0 <= i < k ==> check(xs[i]).Pass?
    ensures FirstFailure(xs, check) == check(xs[k])
  {
    if k > 0 {
      assert check(xs[0]).Pass?;
      FirstFailureAt(xs[1..], check, k - 1);
    }
  }

  /** A failure is the failure of some item all of whose predecessors pass. */
  lemma {:induction false} FirstFailureWitness<T>(xs: seq<T>, check: T -> Outcome) returns (k: nat)
    requires FirstFailure(xs, check).Fail?
    ensures k < |xs| && check(xs[k]) == FirstFailure(xs, check)
    ensures forall i :: 0 <= i < k ==> check(xs[i]).Pass?
  {
    if check(xs[0]).Fail? {
      k := 0;
    } else {
      var k' := FirstFailureWitness(xs[1..], check);
      k := k' + 1;
    }
  }

  // check_value_type

  /** check_value_type: the value must have exactly the expected type. */
  function CheckValueType(key: string, value: Value, expected: VType): (r: Outcome)
    ensures r.Pass? <==> TypeString(TypeOf(value)) == TypeString(expected)
    ensures r.Fail? ==> r.message == "expected type for key " + key + " is " + TypeString(expected)
                                     + ", found " + TypeString(TypeOf(value))
  {
    TypeStringInjective(TypeOf(value), expected);
    if TypeOf(value) == expected then Pass
    else Fail("expected type for key " + key + " is " + TypeString(expected) + ", found " + TypeString(TypeOf(value)))
  }

  // Filters

  /** What an acceptable pattern is: a glob (0) or content type (1) with a non-empty string. */
  predicate ValidPattern(p: FilterPattern) {
    (p.kind == 0 || p.kind == 1) && p.pattern != ""
  }

  /** What an acceptable filter is: a name and at least one pattern, all acceptable. */
  predicate ValidFilterGroup(g: FilterGroup) {
    g.name != "" && |g.patterns| > 0 && forall i :: 0 <= i < |g.patterns| ==> ValidPattern(g.patterns[i])
  }

  /** The verdict on one (type, string) entry of a filter. */
  function PatternVerdict(p: FilterPattern): (r: Outcome)
    ensures r.Pass? <==> ValidPattern(p)
  {
    if p.kind == 0 then
      if p.pattern == "" then Fail("invalid glob pattern") else Pass
    else if p.kind == 1 then
      if p.pattern == "" then Fail("invalid content type") else Pass
    else
      Fail("invalid filter type: " + DecimalString(p.kind as nat))
  }

  /** A pattern of unknown type is rejected with a message that spells its type number. */
  lemma UnknownFilterType(p: FilterPattern) returns (digits: string)
    requires p.kind != 0 && p.kind != 1
    ensures PatternVerdict(p) == Fail("invalid filter type: " + digits)
    ensures DigitsValue(digits) == p.kind as int
  {
    digits := DecimalString(p.kind as nat);
    DecimalStringValue(p.kind as nat);
  }

  /** The verdict of check_filter: name first, then emptiness, then the patterns in order. */
  function FilterVerdict(g: FilterGroup): (r: Outcome)
    ensures r.Pass? <==> ValidFilterGroup(g)
  {
    if g.name == "" then Fail("name is empty")
    else if g.patterns == [] then Fail("no filters")
    else FirstFailure(g.patterns, PatternVerdict)
  }

  /** The verdict of check_filters on a value of any type. */
  function FiltersVerdict(value: Value): (r: Outcome)
    requires WellFormed(value)
    ensures r.Pass? <==> HasType(value, FiltersType) && forall g :: g in DecodeFilters(value) ==> ValidFilterGroup(g)
  {
    var typed := CheckValueType("filters", value, FiltersType);
    if typed.Fail? then typed
    else
      var gs := DecodeFilters(value);
      assert (forall i :: 0 <= i < |gs| ==> FilterVerdict(gs[i]).Pass?) <==> (forall g :: g in gs ==> ValidFilterGroup(g));
      Prefix("invalid filter: ", FirstFailure(gs, FilterVerdict))
  }

  /** check_filter, proved to decide as FilterVerdict does. */
  method CheckFilter(filter: FilterGroup) returns (r: Outcome)
    ensures r == FilterVerdict(filter)
  {
    if filter.name == "" {
      return Fail("name is empty");
    }
    if |filter.patterns| == 0 {
      return Fail("no filters");
    }
    var patterns := filter.patterns;
    var i := 0;
    while i < |patterns|
      invariant 0 <= i <= |patterns|
      invariant forall j :: 0 <= j < i ==> PatternVerdict(patterns[j]).Pass?
    {
      var p := patterns[i];
      if p.kind == 0 {
        if p.pattern == "" {
          FirstFailureAt(patterns, PatternVerdict, i);
          return Fail("invalid glob pattern");
        }
      } else if p.kind == 1 {
        if p.pattern == "" {
          FirstFailureAt(patterns, PatternVerdict, i);
          return Fail("invalid content type");
        }
      } else {
        FirstFailureAt(patterns, PatternVerdict, i);
        return Fail("invalid filter type: " + DecimalString(p.kind as nat));
      }
      i := i + 1;
    }
    return Pass;
  }

  /** check_filters, proved to decide as FiltersVerdict does. */
  method CheckFilters(value: Value) returns (r: Outcome)
    requires WellFormed(value)
    ensures r == FiltersVerdict(value)
  {
    r := CheckValueType("filters", value, FiltersType);
    if r.Fail? {
      return;
    }
    var filters := DecodeFilters(value);
    var i := 0;
    while i < |filters|
      invariant 0 <= i <= |filters|
      invariant forall j :: 0 <= j < i ==> FilterVerdict(filters[j]).Pass?
    {
      var res := CheckFilter(filters[i]);
      if res.Fail? {
        FirstFailureAt(filters, FilterVerdict, i);
        return Fail("invalid filter: " + res.message);
      }
      i := i + 1;
    }
    return Pass;
  }

  /** A failing well-typed filter list fails with the first failing filter's error, prefixed. */
  lemma FiltersFailureIsFirstFilter(value: Value) returns (k: nat)
    requires HasType(value, FiltersType) && FiltersVerdict(value).Fail?
    ensures k < |DecodeFilters(value)|
    ensures forall i :: 0 <= i < k ==> ValidFilterGroup(DecodeFilters(value)[i])
    ensures FilterVerdict(DecodeFilters(value)[k]).Fail?
    ensures FiltersVerdict(value).message == "invalid filter: " + FilterVerdict(DecodeFilters(value)[k]).message
  {
    k := FirstFailureWitness(DecodeFilters(value), FilterVerdict);
  }

  // Choices

  /** The boolean-valued choice accepts these current values. */
  const BooleanValues: seq<string> := ["", "true", "false"]

  predicate ValidChoiceOption(o: ChoiceOption) {
    o.id != "" && o.labelText != ""
  }

  predicate HasOptionId(options: seq<ChoiceOption>, id: string) {
    exists j :: 0 <= j < |options| && options[j].id == id
  }

  /**
   * What an acceptable choice is: an id and a label; without options, a current
   * value among "", "true" and "false"; with options, every option with an id
   * and a label, and a current value that is empty or one of their ids.
   */
  predicate ValidChoice(c: Choice) {
    && c.id != ""
    && c.labelText != ""
    && if c.options == [] then c.current in BooleanValues
       else
         && (forall j :: 0 <= j < |c.options| ==> ValidChoiceOption(c.options[j]))
         && (c.current == "" || HasOptionId(c.options, c.current))
  }

  function OptionVerdict(o: ChoiceOption): (r: Outcome)
    ensures r.Pass? <==> ValidChoiceOption(o)
  {
    if o.id == "" then Fail("option id is empty")
    else if o.labelText == "" then Fail("option label is empty")
    else Pass
  }

  /**
   * The verdict of check_choice: id, label, then either the boolean case or
   * every option in order, and only then the current value.
   */
  function ChoiceVerdict(c: Choice): (r: Outcome)
    ensures r.Pass? <==> ValidChoice(c)
  {
    if c.id == "" then Fail("id is empty")
    else if c.labelText == "" then Fail("label is empty")
    else if c.options == [] then
      if c.current in BooleanValues then Pass else Fail("bad current option: " + c.current)
    else
      var entries := FirstFailure(c.options, OptionVerdict);
      if entries.Fail? then entries
      else if c.current == "" || HasOptionId(c.options, c.current) then Pass
      else Fail("bad current option: " + c.current)
  }

  /** The verdict of check_choices on a value of any type. */
  function ChoicesVerdict(value: Value): (r: Outcome)
    requires WellFormed(value)
    ensures r.Pass? <==> HasType(value, ChoicesType) && forall c :: c in DecodeChoices(value) ==> ValidChoice(c)
  {
    var typed := CheckValueType("choices", value, ChoicesType);
    if typed.Fail? then typed
    else
      var cs := DecodeChoices(value);
      assert (forall i :: 0 <= i < |cs| ==> ChoiceVerdict(cs[i]).Pass?) <==> (forall c :: c in cs ==> ValidChoice(c));
      Prefix("invalid choice: ", FirstFailure(cs, ChoiceVerdict))
  }

  /** check_choice, proved to decide as ChoiceVerdict does. */
  method CheckChoice(choice: Choice) returns (r: Outcome)
    ensures r == ChoiceVerdict(choice)
  {
    if choice.id == "" {
      return Fail("id is empty");
    }
    if choice.labelText == "" {
      return Fail("label is empty");
    }
    var options := choice.options;
    var current := choice.current;
    if |options| == 0 {
      if !(current == "" || current == "true" || current == "false") {
        return Fail("bad current option: " + current);
      }
      return Pass;
    }
    var seenOption := false;
    var i := 0;
    while i < |options|
      invariant 0 <= i <= |options|
      invariant forall j :: 0 <= j < i ==> OptionVerdict(options[j]).Pass?
      invariant seenOption <==> exists j :: 0 <= j < i && options[j].id == current
    {
      var o := options[i];
      if o.id == "" {
        FirstFailureAt(options, OptionVerdict, i);
        return Fail("option id is empty");
      }
      if o.labelText == "" {
        FirstFailureAt(options, OptionVerdict, i);
        return Fail("option label is empty");
      }
      if o.id == current {
        seenOption := true;
      }
      i := i + 1;
    }
    if !seenOption && current != "" {
      return Fail("bad current option: " + current);
    }
    return Pass;
  }

  /** check_choices, proved to decide as ChoicesVerdict does. */
  method CheckChoices(value: Value) returns (r: Outcome)
    requires WellFormed(value)
    ensures r == ChoicesVerdict(value)
  {
    r := CheckValueType("choices", value, ChoicesType);
    if r.Fail? {
      return;
    }
    var choices := DecodeChoices(value);
    var i := 0;
    while i < |choices|
      invariant 0 <= i <= |choices|
      invariant forall j :: 0 <= j < i ==> ChoiceVerdict(choices[j]).Pass?
    {
      var res := CheckChoice(choices[i]);
      if res.Fail? {
        FirstFailureAt(choices, ChoiceVerdict, i);
        return Fail("invalid choice: " + res.message);
      }
      i := i + 1;
    }
    return Pass;
  }

  /**
   * A broken option entry is reported even when the current value is bad as
   * well: the loop over the options runs before the current value is looked at.
   */
  lemma OptionErrorsTakePrecedence(c: Choice, k: nat)
    requires c.id != "" && c.labelText != ""
    requires k < |c.options| && !ValidChoiceOption(c.options[k])
    ensures ChoiceVerdict(c).Fail?
    ensures ChoiceVerdict(c).message == "option id is empty" || ChoiceVerdict(c).message == "option label is empty"
  {
    assert OptionVerdict(c.options[k]).Fail?;
    var j := FirstFailureWitness(c.options, OptionVerdict);
    assert ChoiceVerdict(c) == OptionVerdict(c.options[j]);
  }

  /** A failing well-typed choice list fails with the first failing choice's error, prefixed. */
  lemma ChoicesFailureIsFirstChoice(value: Value) returns (k: nat)
    requires HasType(value, ChoicesType) && ChoicesVerdict(value).Fail?
    ensures k < |DecodeChoices(value)|
    ensures forall i :: 0 <= i < k ==> ValidChoice(DecodeChoices(value)[i])
    ensures ChoiceVerdict(DecodeChoices(value)[k]).Fail?
    ensures ChoicesVerdict(value).message == "invalid choice: " + ChoiceVerdict(DecodeChoices(value)[k]).message
  {
    k := FirstFailureWitness(DecodeChoices(value), ChoiceVerdict);
  }

  // The validation step of handle_open_file

  /**
   * The options of an OpenFile call are rejected when `filters` is present and
   * fails (with "invalid filters: " in front), and otherwise when `choices` is
   * present and fails (with "invalid choices: " in front).
   */
  function OpenOptionsVerdict(options: Vardict): (r: Outcome)
    requires WellFormedDict(options)
    ensures r.Pass? <==>
              && ("filters" in options ==> FiltersVerdict(options["filters"]).Pass?)
              && ("choices" in options ==> ChoicesVerdict(options["choices"]).Pass?)
    ensures "filters" in options && FiltersVerdict(options["filters"]).Fail? ==>
              r == Fail("invalid filters: " + FiltersVerdict(options["filters"]).message)
    ensures ("filters" !in options || FiltersVerdict(options["filters"]).Pass?)
            && "choices" in options && ChoicesVerdict(options["choices"]).Fail? ==>
              r == Fail("invalid choices: " + ChoicesVerdict(options["choices"]).message)
  {
    if "filters" in options && FiltersVerdict(options["filters"]).Fail? then
      Prefix("invalid filters: ", FiltersVerdict(options["filters"]))
    else if "choices" in options && ChoicesVerdict(options["choices"]).Fail? then
      Prefix("invalid choices: ", ChoicesVerdict(options["choices"]))
    else Pass
  }

  /** Choices are only looked at once the filters have passed. */
  lemma ChoicesCheckedAfterFilters(options: Vardict, choices: Value)
    requires WellFormedDict(options) && WellFormed(choices)
    requires "filters" in options && FiltersVerdict(options["filters"]).Fail?
    ensures OpenOptionsVerdict(options["choices" := choices]) == OpenOptionsVerdict(options)
  {
    var options' := options["choices" := choices];
    assert options'["filters"] == options["filters"];
  }

  /** On an encoded filter list, check_filters decides on the filters themselves. */
  lemma FiltersVerdictOfEncoding(gs: seq<FilterGroup>)
    ensures FiltersVerdict(EncodeFilters(gs)) == Prefix("invalid filter: ", FirstFailure(gs, FilterVerdict))
  {
    FiltersRoundTrip(gs);
  }

  /** On an encoded choice list, check_choices decides on the choices themselves. */
  lemma ChoicesVerdictOfEncoding(cs: seq<Choice>)
    ensures ChoicesVerdict(EncodeChoices(cs)) == Prefix("invalid choice: ", FirstFailure(cs, ChoiceVerdict))
  {
    ChoicesRoundTrip(cs);
  }

  /** An OpenFile call with a filter named "" is rejected with the full prefix chain. */
  lemma EmptyFilterNameRejected(patterns: seq<FilterPattern>, options: Vardict)
    requires options == map["filters" := EncodeFilters([FilterGroup("", patterns)])]
    ensures WellFormedDict(options)
    ensures OpenOptionsVerdict(options) == Fail("invalid filters: " + "invalid filter: " + "name is empty")
  {
    var gs := [FilterGroup("", patterns)];
    var v := EncodeFilters(gs);
    assert FiltersVerdict(v) == Fail("invalid filter: " + "name is empty") by {
      FiltersVerdictOfEncoding(gs);
      assert FirstFailure(gs, FilterVerdict) == Fail("name is empty");
    }
    assert WellFormedDict(options) && options["filters"] == v;
  }

  /**
   * Options whose `filters` (if present) encode acceptable filters and whose
   * `choices` (if present) encode acceptable choices are accepted, whatever
   * other keys they hold.
   */
  lemma WellFormedOptionsAccepted(gs: seq<FilterGroup>, cs: seq<Choice>, options: Vardict)
    requires forall i :: 0 <= i < |gs| ==> ValidFilterGroup(gs[i])
    requires forall i :: 0 <= i < |cs| ==> ValidChoice(cs[i])
    requires WellFormedDict(options)
    requires "filters" in options ==> options["filters"] == EncodeFilters(gs)
    requires "choices" in options ==> options["choices"] == EncodeChoices(cs)
    ensures OpenOptionsVerdict(options).Pass?
  {
    FiltersVerdictOfEncoding(gs);
    ChoicesVerdictOfEncoding(cs);
  }

  /** A `filters` value of another type is rejected with both type strings in the message. */
  lemma FiltersTypeMismatch(value: Value)
    requires WellFormed(value) && TypeOf(value) != FiltersType
    ensures FiltersVerdict(value)
            == Fail("expected type for key filters is " + "a(sa(us))" + ", found " + TypeString(TypeOf(value)))
  {
    TypeStrings();
  }

  /** A `choices` value of another type is rejected with both type strings in the message. */
  lemma ChoicesTypeMismatch(value: Value)
    requires WellFormed(value) && TypeOf(value) != ChoicesType
    ensures ChoicesVerdict(value)
            == Fail("expected type for key choices is " + "a(ssa(ss)s)" + ", found " + TypeString(TypeOf(value)))
  {
    TypeStrings();
  }
}
