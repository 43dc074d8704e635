/**
 * The compound option values of the file chooser: the `filters` list
 * (type a(sa(us))) and the `choices` list (type a(ssa(ss)s)), as typed
 * records, together with the encodings that relate them to GVariant values,
 * and the option-key tables of the two methods.
 */
module Options {
  import opened GVariant

  /** One (type, string) entry of a filter: type 0 is a glob, 1 a content type. */
  datatype FilterPattern = FilterPattern(kind: uint32, pattern: string)
  /** A named filter: (name, list of patterns). */
  datatype FilterGroup = FilterGroup(name: string, patterns: seq<FilterPattern>)
  /** One (id, label) entry of a choice. */
  datatype ChoiceOption = ChoiceOption(id: string, labelText: string)
  /** A choice: (id, label, options, current value). */
  datatype Choice = Choice(id: string, labelText: string, options: seq<ChoiceOption>, current: string)

  const PatternType: VType := TTuple([TUint32, TString])
  const FilterType: VType := TTuple([TString, TArray(PatternType)])
  const FiltersType: VType := TArray(FilterType)
  const ChoiceOptionType: VType := TTuple([TString, TString])
  const ChoiceType: VType := TTuple([TString, TString, TArray(ChoiceOptionType), TString])
  const ChoicesType: VType := TArray(ChoiceType)

  /** An entry of an option-key table: a key and the type it is forwarded with. */
  datatype OptionKey = OptionKey(key: string, vtype: VType)

  /** The keys handle_open_file forwards to the backend. */
  const OpenFileOptions: seq<OptionKey> := [
    OptionKey("accept_label", TString),
    OptionKey("modal", TBool),
    OptionKey("multiple", TBool),
    OptionKey("filters", FiltersType),
    OptionKey("choices", ChoicesType)
  ]

  /** The keys handle_save_file forwards to the backend. */
  const SaveFileOptions: seq<OptionKey> := [
    OptionKey("accept_label", TString),
    OptionKey("modal", TBool),
    OptionKey("filters", FiltersType),
    OptionKey("current_name", TString),
    OptionKey("current_folder", TArray(TByte)),
    OptionKey("current_file", TArray(TByte)),
    OptionKey("choices", ChoicesType)
  ]

  /** The type strings the key tables and the error messages use. */
  lemma TypeStrings()
    ensures TypeString(FiltersType) == "a(sa(us))"
    ensures TypeString(ChoicesType) == "a(ssa(ss)s)"
    ensures TypeString(TArray(ChoiceOptionType)) == "a(ss)"
  {
    TupleTypeString([TUint32, TString], ["u", "s"]);
    assert Concat(["u", "s"]) == "us";
    TupleTypeString([TString, TArray(PatternType)], ["s", "a(us)"]);
    assert Concat(["s", "a(us)"]) == "sa(us)";
    TupleTypeString([TString, TString], ["s", "s"]);
    assert Concat(["s", "s"]) == "ss";
    TupleTypeString([TString, TString, TArray(ChoiceOptionType), TString], ["s", "s", "a(ss)", "s"]);
    assert Concat(["s", "s", "a(ss)", "s"]) == "ssa(ss)s";
  }

  lemma TupleTypeString(ts: seq<VType>, strs: seq<string>)
    requires |ts| == |strs|
    requires forall i :: 0 <= i < |ts| ==> TypeString(ts[i]) == strs[i]
    ensures TypeString(TTuple(ts)) == "(" + Concat(strs) + ")"
  {
    assert seq(|ts|, i requires 0 <= i < |ts| => TypeString(ts[i])) == strs;
  }

  // Encodings: typed record -> GVariant value.

  function EncodePattern(p: FilterPattern): (v: Value)
    ensures HasType(v, PatternType)
  {
    var fs := [VUint32(p.kind), VString(p.pattern)];
    TupleHasType(fs, [TUint32, TString]);
    VTuple(fs)
  }

  function EncodeFilter(g: FilterGroup): (v: Value)
    ensures HasType(v, FilterType)
  {
    var ps := g.patterns;
    var list := VArray(PatternType, seq(|ps|, i requires 0 <= i < |ps| => EncodePattern(ps[i])));
    var fs := [VString(g.name), list];
    TupleHasType(fs, [TString, TArray(PatternType)]);
    VTuple(fs)
  }

  function EncodeFilters(gs: seq<FilterGroup>): (v: Value)
    ensures HasType(v, FiltersType)
  {
    VArray(FilterType, seq(|gs|, i requires 0 <= i < |gs| => EncodeFilter(gs[i])))
  }

  function EncodeChoiceOption(o: ChoiceOption): (v: Value)
    ensures HasType(v, ChoiceOptionType)
  {
    var fs := [VString(o.id), VString(o.labelText)];
    TupleHasType(fs, [TString, TString]);
    VTuple(fs)
  }

  function EncodeChoice(c: Choice): (v: Value)
    ensures HasType(v, ChoiceType)
  {
    var os := c.options;
    var list := VArray(ChoiceOptionType, seq(|os|, i requires 0 <= i < |os| => EncodeChoiceOption(os[i])));
    var fs := [VString(c.id), VString(c.labelText), list, VString(c.current)];
    TupleHasType(fs, [TString, TString, TArray(ChoiceOptionType), TString]);
    VTuple(fs)
  }

  function EncodeChoices(cs: seq<Choice>): (v: Value)
    ensures HasType(v, ChoicesType)
  {
    VArray(ChoiceType, seq(|cs|, i requires 0 <= i < |cs| => EncodeChoice(cs[i])))
  }

  // Decodings: what g_variant_get extracts from a value of the right type.

  /** The shape of a tuple value follows from the shape of its type. */
  lemma TupleShape(v: Value, ts: seq<VType>)
    requires HasType(v, TTuple(ts))
    ensures v.VTuple? && |v.fields| == |ts|
    ensures forall i :: 0 <= i < |ts| ==> HasType(v.fields[i], ts[i])
  {
    assert v.VTuple?;
    var n := |v.fields|;
    assert |TypeOf(v).fields| == n;
    forall i | 0 <= i < |ts| ensures HasType(v.fields[i], ts[i]) {
      assert TypeOf(v).fields[i] == TypeOf(v.fields[i]);
    }
  }

  /** The elements of a well-typed array value have its element type. */
  lemma ArrayShape(v: Value, t: VType)
    requires HasType(v, TArray(t))
    ensures v.VArray? && v.elem == t
    ensures forall i :: 0 <= i < |v.items| ==> HasType(v.items[i], t)
  {
  }

  function DecodePattern(v: Value): (p: FilterPattern)
    requires HasType(v, PatternType)
    ensures EncodePattern(p) == v
  {
    TupleShape(v, [TUint32, TString]);
    FilterPattern(v.fields[0].u, v.fields[1].s)
  }

  function DecodeFilter(v: Value): (g: FilterGroup)
    requires HasType(v, FilterType)
    ensures EncodeFilter(g) == v
  {
    TupleShape(v, [TString, TArray(PatternType)]);
    var list := v.fields[1];
    ArrayShape(list, PatternType);
    var ps := seq(|list.items|, i requires 0 <= i < |list.items| => DecodePattern(list.items[i]));
    var g := FilterGroup(v.fields[0].s, ps);
    assert EncodeFilter(g).fields[1].items == list.items;
    g
  }

  function DecodeFilters(v: Value): (gs: seq<FilterGroup>)
    requires HasType(v, FiltersType)
    ensures EncodeFilters(gs) == v
  {
    ArrayShape(v, FilterType);
    var gs := seq(|v.items|, i requires 0 <= i < |v.items| => DecodeFilter(v.items[i]));
    assert EncodeFilters(gs).items == v.items;
    gs
  }

  function DecodeChoiceOption(v: Value): (o: ChoiceOption)
    requires HasType(v, ChoiceOptionType)
    ensures EncodeChoiceOption(o) == v
  {
    TupleShape(v, [TString, TString]);
    ChoiceOption(v.fields[0].s, v.fields[1].s)
  }

  function DecodeChoice(v: Value): (c: Choice)
    requires HasType(v, ChoiceType)
    ensures EncodeChoice(c) == v
  {
    TupleShape(v, [TString, TString, TArray(ChoiceOptionType), TString]);
    var list := v.fields[2];
    ArrayShape(list, ChoiceOptionType);
    var os := seq(|list.items|, i requires 0 <= i < |list.items| => DecodeChoiceOption(list.items[i]));
    var c := Choice(v.fields[0].s, v.fields[1].s, os, v.fields[3].s);
    assert EncodeChoice(c).fields[2].items == list.items;
    c
  }

  function DecodeChoices(v: Value): (cs: seq<Choice>)
    requires HasType(v, ChoicesType)
    ensures EncodeChoices(cs) == v
  {
    ArrayShape(v, ChoiceType);
    var cs := seq(|v.items|, i requires 0 <= i < |v.items| => DecodeChoice(v.items[i]));
    assert EncodeChoices(cs).items == v.items;
    cs
  }

  /** Encoding is injective, so decoding an encoding gives the records back. */
  lemma {:induction false} FiltersRoundTrip(gs: seq<FilterGroup>)
    ensures DecodeFilters(EncodeFilters(gs)) == gs
  {
    var gs' := DecodeFilters(EncodeFilters(gs));
    assert |gs'| == |gs|;
    forall i | 0 <= i < |gs| ensures gs'[i] == gs[i] {
      FilterInjective(gs'[i], gs[i]);
    }
  }

  lemma FilterInjective(a: FilterGroup, b: FilterGroup)
    requires EncodeFilter(a) == EncodeFilter(b)
    ensures a == b
  {
    var pa, pb := EncodeFilter(a).fields[1].items, EncodeFilter(b).fields[1].items;
    assert |a.patterns| == |pa| == |pb| == |b.patterns|;
    forall i | 0 <= i < |a.patterns| ensures a.patterns[i] == b.patterns[i] {
      assert pa[i] == pb[i];
    }
  }

  lemma {:induction false} ChoicesRoundTrip(cs: seq<Choice>)
    ensures DecodeChoices(EncodeChoices(cs)) == cs
  {
    var cs' := DecodeChoices(EncodeChoices(cs));
    assert |cs'| == |cs|;
    forall i | 0 <= i < |cs| ensures cs'[i] == cs[i] {
      ChoiceInjective(cs'[i], cs[i]);
    }
  }

  lemma ChoiceInjective(a: Choice, b: Choice)
    requires EncodeChoice(a) == EncodeChoice(b)
    ensures a == b
  {
    var oa, ob := EncodeChoice(a).fields[2].items, EncodeChoice(b).fields[2].items;
    assert |a.options| == |oa| == |ob| == |b.options|;
    forall i | 0 <= i < |a.options| ensures a.options[i] == b.options[i] {
      assert oa[i] == ob[i];
    }
  }
}
