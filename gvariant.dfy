/**
 * A value model of the GVariant values that the file chooser portal receives
 * and sends over D-Bus: every value carries a type, arrays carry their element
 * type (so that an empty array still has one), and an `a{sv}` option
 * dictionary is a map from keys to the values held in its variants.
 */
module GVariant {

  newtype uint8 = x: int | 0 <= x < 0x100
  newtype uint32 = x: int | 0 <= x < 0x1_0000_0000

  datatype Option<+T> = None | Some(value: T)

  /** GVariant type descriptors: b, y, u, s, v, a<T>, (T...) and {K V}. */
  datatype VType =
    | TBool
    | TByte
    | TUint32
    | TString
    | TVariant
    | TArray(elem: VType)
    | TTuple(fields: seq<VType>)
    | TDictEntry(key: VType, val: VType)

  datatype Value =
    | VBool(b: bool)
    | VByte(y: uint8)
    | VUint32(u: uint32)
    | VString(s: string)
    | VVariant(inner: Value)
    | VArray(elem: VType, items: seq<Value>)
    | VTuple(fields: seq<Value>)
    | VDictEntry(key: Value, val: Value)

  /** The type of a value, as g_variant_get_type reports it. */
  function TypeOf(v: Value): VType {
    match v
    case VBool(_) => TBool
    case VByte(_) => TByte
    case VUint32(_) => TUint32
    case VString(_) => TString
    case VVariant(_) => TVariant
    case VArray(elem, _) => TArray(elem)
    case VTuple(fields) => TTuple(seq(|fields|, i requires 0 <= i < |fields| => TypeOf(fields[i])))
    case VDictEntry(k, x) => TDictEntry(TypeOf(k), TypeOf(x))
  }

  /** Every array element has the array's element type, all the way down. */
  predicate WellFormed(v: Value) {
    match v
    case VVariant(inner) => WellFormed(inner)
    case VArray(elem, items) =>
      forall i :: 0 <= i < |items| ==> TypeOf(items[i]) == elem && WellFormed(items[i])
    case VTuple(fields) => forall i :: 0 <= i < |fields| ==> WellFormed(fields[i])
    case VDictEntry(k, x) => WellFormed(k) && WellFormed(x)
    case _ => true
  }

  predicate HasType(v: Value, t: VType) {
    WellFormed(v) && TypeOf(v) == t
  }

  /** A tuple of well-typed fields has the tuple of their types. */
  lemma TupleHasType(fs: seq<Value>, ts: seq<VType>)
    requires |fs| == |ts|
    requires forall i :: 0 <= i < |fs| ==> HasType(fs[i], ts[i])
    ensures HasType(VTuple(fs), TTuple(ts))
  {
    var t := TypeOf(VTuple(fs));
    assert |t.fields| == |ts|;
    forall i | 0 <= i < |ts| ensures t.fields[i] == ts[i] {
      assert t.fields[i] == TypeOf(fs[i]);
    }
  }

  function Concat(ss: seq<string>): string {
    if ss == [] then "" else ss[0] + Concat(ss[1..])
  }

  /** The GVariant type string of a type descriptor ("a(sa(us))", ...). */
  function TypeString(t: VType): string {
    match t
    case TBool => "b"
    case TByte => "y"
    case TUint32 => "u"
    case TString => "s"
    case TVariant => "v"
    case TArray(e) => "a" + TypeString(e)
    case TTuple(fs) => "(" + Concat(seq(|fs|, i requires 0 <= i < |fs| => TypeString(fs[i]))) + ")"
    case TDictEntry(k, x) => "{" + TypeString(k) + TypeString(x) + "}"
  }

  /**
   * Reads one complete type from the front of a type string and returns it
   * with the rest of the string; the inverse of TypeString.
   */
  function ParseType(s: string): (r: Option<(VType, string)>)
    ensures r.Some? ==> |r.value.1| < |s|
    decreases |s|, 1
  {
    if s == [] then None
    else match s[0]
      case 'b' => Some((TBool, s[1..]))
      case 'y' => Some((TByte, s[1..]))
      case 'u' => Some((TUint32, s[1..]))
      case 's' => Some((TString, s[1..]))
      case 'v' => Some((TVariant, s[1..]))
      case 'a' =>
        (match ParseType(s[1..])
         case Some((e, rest)) => Some((TArray(e), rest))
         case None => None)
      case '(' =>
        (match ParseFields(s[1..], [])
         case Some((fs, rest)) => Some((TTuple(fs), rest))
         case None => None)
      case '{' =>
        (match ParseType(s[1..])
         case None => None
         case Some((k, rest)) =>
           match ParseType(rest)
           case None => None
           case Some((x, rest')) =>
             if rest' != [] && rest'[0] == '}' then Some((TDictEntry(k, x), rest'[1..])) else None)
      case _ => None
  }

  /** Reads the field types of a tuple up to and including its closing ')'. */
  function ParseFields(s: string, acc: seq<VType>): (r: Option<(seq<VType>, string)>)
    ensures r.Some? ==> |r.value.1| < |s|
    decreases |s|, 2
  {
    if s == [] then None
    else if s[0] == ')' then Some((acc, s[1..]))
    else match ParseType(s)
      case None => None
      case Some((t, rest)) => ParseFields(rest, acc + [t])
  }

  /** A type string is never empty and never starts with ')'. */
  lemma TypeStringHead(t: VType)
    ensures |TypeString(t)| > 0 && TypeString(t)[0] != ')'
  {
  }

  /** Parsing a type string followed by anything gives back the type and the rest. */
  lemma {:induction false} ParseTypeString(t: VType, rest: string)
    ensures ParseType(TypeString(t) + rest) == Some((t, rest))
    decreases t
  {
    var s := TypeString(t) + rest;
    match t
    case TArray(e) =>
      assert s[1..] == TypeString(e) + rest;
      ParseTypeString(e, rest);
    case TTuple(fs) =>
      var inner := Concat(seq(|fs|, i requires 0 <= i < |fs| => TypeString(fs[i])));
      assert s[1..] == inner + (")" + rest);
      ParseFieldsString(fs, rest, []);
      assert [] + fs == fs;
    case TDictEntry(k, x) =>
      assert s[1..] == TypeString(k) + (TypeString(x) + ("}" + rest));
      ParseTypeString(k, TypeString(x) + ("}" + rest));
      ParseTypeString(x, "}" + rest);
    case _ =>
  }

  /** Parsing the concatenated field strings and ')' gives back the fields and the rest. */
  lemma {:induction false} ParseFieldsString(fs: seq<VType>, rest: string, acc: seq<VType>)
    ensures ParseFields(Concat(seq(|fs|, i requires 0 <= i < |fs| => TypeString(fs[i]))) + (")" + rest), acc)
            == Some((acc + fs, rest))
    decreases fs
  {
    var strs := seq(|fs|, i requires 0 <= i < |fs| => TypeString(fs[i]));
    if fs == [] {
      assert Concat(strs) + (")" + rest) == ")" + rest;
      assert (")" + rest)[1..] == rest;
      assert acc + fs == acc;
    } else {
      var tail := seq(|fs[1..]|, i requires 0 <= i < |fs[1..]| => TypeString(fs[1..][i]));
      assert strs[1..] == tail;
      var s := TypeString(fs[0]) + (Concat(tail) + (")" + rest));
      assert Concat(strs) + (")" + rest) == s;
      TypeStringHead(fs[0]);
      ParseTypeString(fs[0], Concat(tail) + (")" + rest));
      ParseFieldsString(fs[1..], rest, acc + [fs[0]]);
      assert acc + [fs[0]] + fs[1..] == acc + fs;
    }
  }

  /** Different types have different type strings. */
  lemma TypeStringInjective(t1: VType, t2: VType)
    ensures TypeString(t1) == TypeString(t2) <==> t1 == t2
  {
    ParseTypeString(t1, "");
    ParseTypeString(t2, "");
    assert TypeString(t1) + "" == TypeString(t1) && TypeString(t2) + "" == TypeString(t2);
  }

  /** An `a{sv}` dictionary with its variants unwrapped. */
  type Vardict = map<string, Value>

  predicate WellFormedDict(d: Vardict) {
    forall k :: k in d ==> WellFormed(d[k])
  }

  /**
   * g_variant_lookup_value (dict, key, type): the value under key when it has
   * the given type, and nothing when the key is missing or the type differs.
   */
  function Lookup(d: Vardict, key: string, t: VType): Option<Value> {
    if key in d && TypeOf(d[key]) == t then Some(d[key]) else None
  }

  /** The `as` value holding the given strings, in order. */
  function StringArray(ss: seq<string>): (v: Value)
    ensures HasType(v, TArray(TString)) && |v.items| == |ss|
    ensures forall i :: 0 <= i < |ss| ==> v.items[i] == VString(ss[i])
  {
    VArray(TString, seq(|ss|, i requires 0 <= i < |ss| => VString(ss[i])))
  }

  /** The strings of an `as` value. */
  function Strings(v: Value): (ss: seq<string>)
    requires HasType(v, TArray(TString))
    ensures StringArray(ss) == v
  {
    var items := v.items;
    assert forall i :: 0 <= i < |items| ==> items[i].VString? by {
      forall i | 0 <= i < |items| ensures items[i].VString? {
        assert TypeOf(items[i]) == TString;
      }
    }
    var ss := seq(|items|, i requires 0 <= i < |items| => items[i].s);
    assert StringArray(ss).items == items;
    ss
  }

  function DigitChar(d: nat): (c: char)
    requires d < 10
    ensures '0' <= c <= '9'
  {
    (('0' as int) + d) as char
  }

  /** The number a string of decimal digits spells, most significant digit first. */
  function DigitsValue(s: string): int {
    if s == [] then 0 else 10 * DigitsValue(s[..|s| - 1]) + (s[|s| - 1] as int - '0' as int)
  }

  /** The decimal rendering of a natural number, as printf's %u writes it. */
  function DecimalString(n: nat): (r: string)
    ensures |r| >= 1
    ensures forall i :: 0 <= i < |r| ==> '0' <= r[i] <= '9'
    ensures r[0] == '0' ==> n == 0
  {
    if n < 10 then [DigitChar(n)] else DecimalString(n / 10) + [DigitChar(n % 10)]
  }

  /** The decimal rendering spells the number it renders. */
  lemma {:induction false} DecimalStringValue(n: nat)
    ensures DigitsValue(DecimalString(n)) == n
  {
    var r := DecimalString(n);
    if n >= 10 {
      assert r[..|r| - 1] == DecimalString(n / 10);
      DecimalStringValue(n / 10);
    }
  }
}
