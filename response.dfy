/**
 * What send_response_in_thread_func assembles once the backend has answered:
 * the `writable` flag it registers documents with, the registered references
 * of the returned URIs (failures skipped), the `choices` it passes through,
 * and the results dictionary of the Response signal.
 */
module Responses {
  import opened GVariant
  import opened Options

  /**
   * register_document (uri, app_id, for_save, writable): the reference the
   * document portal hands out for the URI, or nothing when registration fails.
   */
  type Registrar = (string, string, bool, bool) -> Option<string>

  /** The arguments of one register_document call. */
  datatype RegistrationCall = RegistrationCall(uri: string, appId: string, forSave: bool, writable: bool)

  /** The response code of an interaction that ended some other way (a failed backend call). */
  const ResponseOther: uint32 := 2

  /**
   * The `writable` flag: the backend's boolean when the key is present with
   * type b, and FALSE otherwise, whether the key is missing or has another type.
   */
  function Writable(options: Vardict): (w: bool)
    ensures w <==> "writable" in options && options["writable"] == VBool(true)
  {
    match Lookup(options, "writable", TBool)
    case Some(VBool(b)) => b
    case _ => false
  }

  /** The URIs the backend returned under `uris` with type as; none otherwise. */
  function UrisOf(options: Vardict): (uris: seq<string>)
    requires WellFormedDict(options)
    ensures Lookup(options, "uris", TArray(TString)).Some? ==> StringArray(uris) == options["uris"]
    ensures Lookup(options, "uris", TArray(TString)).None? ==> uris == []
  {
    match Lookup(options, "uris", TArray(TString))
    case Some(v) => Strings(v)
    case None => []
  }

  /** The reference obtained for one URI, as a list of zero or one element. */
  function RegisteredOne(uri: string, appId: string, forSave: bool, writable: bool, register: Registrar): seq<string> {
    match register(uri, appId, forSave, writable)
    case Some(ref) => [ref]
    case None => []
  }

  /** The references of the URIs whose registration succeeded, in the URIs' order. */
  function Registered(uris: seq<string>, appId: string, forSave: bool, writable: bool, register: Registrar): seq<string> {
    if uris == [] then []
    else Registered(uris[..|uris| - 1], appId, forSave, writable, register)
         + RegisteredOne(uris[|uris| - 1], appId, forSave, writable, register)
  }

  /** Registering a concatenation registers each part, in order. */
  lemma {:induction false} RegisteredAppend(a: seq<string>, b: seq<string>, appId: string, forSave: bool, writable: bool, register: Registrar)
    ensures Registered(a + b, appId, forSave, writable, register)
            == Registered(a, appId, forSave, writable, register) + Registered(b, appId, forSave, writable, register)
  {
    if b != [] {
      var b' := b[..|b| - 1];
      assert (a + b)[..|a + b| - 1] == a + b';
      RegisteredAppend(a, b', appId, forSave, writable, register);
    } else {
      assert a + b == a;
    }
  }

  /**
   * A URI whose registration fails is dropped and changes nothing else: the
   * references of the other URIs keep their order.
   */
  lemma FailedUriSkipped(a: seq<string>, uri: string, b: seq<string>, appId: string, forSave: bool, writable: bool, register: Registrar)
    requires register(uri, appId, forSave, writable).None?
    ensures Registered(a + [uri] + b, appId, forSave, writable, register)
            == Registered(a, appId, forSave, writable, register) + Registered(b, appId, forSave, writable, register)
  {
    RegisteredAppend(a + [uri], b, appId, forSave, writable, register);
    RegisteredAppend(a, [uri], appId, forSave, writable, register);
    assert [uri][..0] == [];
  }

  /** When every registration succeeds, the result is the references of all URIs, one for one. */
  lemma {:induction false} AllRegistered(uris: seq<string>, appId: string, forSave: bool, writable: bool, register: Registrar)
    requires forall i :: 0 <= i < |uris| ==> register(uris[i], appId, forSave, writable).Some?
    ensures |Registered(uris, appId, forSave, writable, register)| == |uris|
    ensures forall i :: 0 <= i < |uris| ==>
              Registered(uris, appId, forSave, writable, register)[i] == register(uris[i], appId, forSave, writable).value
  {
    if uris != [] {
      var init := uris[..|uris| - 1];
      AllRegistered(init, appId, forSave, writable, register);
    }
  }

  /** At most one reference per URI, and every reference is one that register_document returned for some URI. */
  lemma {:induction false} RegisteredFromUris(uris: seq<string>, appId: string, forSave: bool, writable: bool, register: Registrar)
    ensures |Registered(uris, appId, forSave, writable, register)| <= |uris|
    ensures forall r :: r in Registered(uris, appId, forSave, writable, register) ==>
              exists i :: 0 <= i < |uris| && register(uris[i], appId, forSave, writable) == Some(r)
  {
    if uris != [] {
      var init := uris[..|uris| - 1];
      RegisteredFromUris(init, appId, forSave, writable, register);
      forall r | r in Registered(uris, appId, forSave, writable, register)
        ensures exists i :: 0 <= i < |uris| && register(uris[i], appId, forSave, writable) == Some(r)
      {
        if r in Registered(init, appId, forSave, writable, register) {
          var i :| 0 <= i < |init| && register(init[i], appId, forSave, writable) == Some(r);
          assert uris[i] == init[i];
        } else {
          assert register(uris[|uris| - 1], appId, forSave, writable) == Some(r);
        }
      }
    }
  }

  /** The calls made for the URIs: one per URI, in order, all with the same flags. */
  function RegistrationCalls(uris: seq<string>, appId: string, forSave: bool, writable: bool): (calls: seq<RegistrationCall>)
    ensures |calls| == |uris|
    ensures forall i :: 0 <= i < |uris| ==> calls[i] == RegistrationCall(uris[i], appId, forSave, writable)
  {
    seq(|uris|, i requires 0 <= i < |uris| => RegistrationCall(uris[i], appId, forSave, writable))
  }

  /** The loop of send_response_in_thread_func: register each URI, skip failures. */
  method RegisterUris(uris: seq<string>, appId: string, forSave: bool, writable: bool, register: Registrar)
    returns (refs: seq<string>, calls: seq<RegistrationCall>)
    ensures refs == Registered(uris, appId, forSave, writable, register)
    ensures calls == RegistrationCalls(uris, appId, forSave, writable)
  {
    refs, calls := [], [];
    var i := 0;
    while i < |uris|
      invariant 0 <= i <= |uris|
      invariant refs == Registered(uris[..i], appId, forSave, writable, register)
      invariant calls == RegistrationCalls(uris[..i], appId, forSave, writable)
    {
      assert uris[..i + 1][..i] == uris[..i];
      calls := calls + [RegistrationCall(uris[i], appId, forSave, writable)];
      var ref := register(uris[i], appId, forSave, writable);
      if ref.Some? {
        refs := refs + [ref.value];
      }
      i := i + 1;
    }
    assert uris[..i] == uris;
  }

  /**
   * The results dictionary of the Response signal: `uris` always, and, on
   * success only, the registered references under `uris` and the backend's
   * `choices` when it has type a(ss).
   */
  function ResponseResults(response: uint32, options: Vardict, appId: string, forSave: bool, register: Registrar)
    : (results: Vardict)
    requires WellFormedDict(options)
    ensures "uris" in results && HasType(results["uris"], TArray(TString))
    ensures response != 0 ==> results == map["uris" := StringArray([])]
    ensures response == 0 ==>
              results["uris"] == StringArray(Registered(UrisOf(options), appId, forSave, Writable(options), register))
    ensures "choices" in results <==> response == 0 && Lookup(options, "choices", TArray(ChoiceOptionType)).Some?
    ensures "choices" in results ==> results["choices"] == options["choices"]
    ensures results.Keys <= {"uris", "choices"}
  {
    if response != 0 then map["uris" := StringArray([])]
    else
      var refs := Registered(UrisOf(options), appId, forSave, Writable(options), register);
      match Lookup(options, "choices", TArray(ChoiceOptionType))
      case Some(choices) => map["choices" := choices, "uris" := StringArray(refs)]
      case None => map["uris" := StringArray(refs)]
  }

  /**
   * An answer of (0, {uris: [u], writable: false}) registers u once, read-only,
   * and answers with the one reference obtained.
   */
  lemma SingleUriAnswer(uri: string, appId: string, forSave: bool, register: Registrar, ref: string, options: Vardict)
    requires options == map["uris" := StringArray([uri]), "writable" := VBool(false)]
    requires register(uri, appId, forSave, false) == Some(ref)
    ensures WellFormedDict(options)
    ensures RegistrationCalls(UrisOf(options), appId, forSave, Writable(options)) == [RegistrationCall(uri, appId, forSave, false)]
    ensures ResponseResults(0, options, appId, forSave, register) == map["uris" := StringArray([ref])]
  {
    assert options["uris"] == StringArray([uri]) && options["writable"] == VBool(false);
    assert WellFormedDict(options);
    assert UrisOf(options) == [uri] by {
      var uris := UrisOf(options);
      assert StringArray(uris) == StringArray([uri]);
      assert |uris| == 1 && StringArray(uris).items[0] == VString(uris[0]);
    }
    assert Registered([uri], appId, forSave, false, register) == [ref] by {
      assert [uri][..0] == [];
    }
  }
}
