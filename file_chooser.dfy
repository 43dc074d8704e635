/**
 * The OpenFile and SaveFile methods of the file chooser portal: the handlers
 * that validate a call, attach the backend request and export the Request,
 * the callbacks that record the backend's answer, and the task that turns the
 * answer into the one Response signal of the request.
 *
 * The bus and the backend are parameters: whether creating the backend's
 * request object failed, what the backend answered, and what
 * register_document returns for each URI.
 */
module FileChooser {
  import opened GVariant
  import opened Options
  import opened Validation
  import opened Responses
  import opened Requests

  datatype PortalError =
    | InvalidArgument(message: string)  // a rejected option payload
    | ProxyFailure(message: string)     // the backend's request object could not be created

  /** The reply to the OpenFile or SaveFile call itself. */
  datatype Reply = Completed(handle: string) | Failed(error: PortalError)

  datatype CallKind = OpenFileCall | SaveFileCall

  /**
   * The asynchronous call issued to the backend: the request handle, the
   * caller, the window and title, and the caller's options, which the
   * backend receives filtered down to the keys of the given table.
   */
  datatype BackendCall = BackendCall(
    kind: CallKind, handle: string, appId: string,
    parentWindow: string, title: string, options: Vardict, keys: seq<OptionKey>)

  /** A successful backend answer: (response code, results). */
  datatype BackendAnswer = BackendAnswer(response: uint32, results: Vardict)

  /** handle_open_file: validate, attach the backend request, export, dispatch. */
  method HandleOpenFile(request: Request, parentWindow: string, title: string, options: Vardict, proxyError: Option<string>)
    returns (reply: Reply, call: Option<BackendCall>)
    requires request.Valid() && !request.exported && request.responses == []
    requires WellFormedDict(options)
    modifies request
    ensures request.Valid()
    ensures OpenOptionsVerdict(options).Fail? ==>
              && reply == Failed(InvalidArgument(OpenOptionsVerdict(options).message))
              && call == None && unchanged(request)
    ensures OpenOptionsVerdict(options).Pass? && proxyError.Some? ==>
              reply == Failed(ProxyFailure(proxyError.value)) && call == None && unchanged(request)
    ensures OpenOptionsVerdict(options).Pass? && proxyError.None? ==>
              && reply == Completed(request.id)
              && call == Some(BackendCall(OpenFileCall, request.id, request.appId, parentWindow, title, options, OpenFileOptions))
              && request.exported && request.implRequest
              && request.forSave == old(request.forSave) && request.response == old(request.response)
              && request.options == old(request.options) && request.responses == []
  {
    if "filters" in options {
      var r := CheckFilters(options["filters"]);
      if r.Fail? {
        return Failed(InvalidArgument("invalid filters: " + r.message)), None;
      }
    }
    if "choices" in options {
      var r := CheckChoices(options["choices"]);
      if r.Fail? {
        return Failed(InvalidArgument("invalid choices: " + r.message)), None;
      }
    }
    if proxyError.Some? {
      return Failed(ProxyFailure(proxyError.value)), None;
    }
    request.implRequest := true;
    request.Export();
    call := Some(BackendCall(OpenFileCall, request.id, request.appId, parentWindow, title, options, OpenFileOptions));
    reply := Completed(request.id);
  }

  /** handle_save_file: no validation; mark the request for saving, attach, export, dispatch. */
  method HandleSaveFile(request: Request, parentWindow: string, title: string, options: Vardict, proxyError: Option<string>)
    returns (reply: Reply, call: Option<BackendCall>)
    requires request.Valid() && !request.exported && request.responses == []
    modifies request
    ensures request.Valid()
    ensures proxyError.Some? ==>
              reply == Failed(ProxyFailure(proxyError.value)) && call == None && unchanged(request)
    ensures proxyError.None? ==>
              && reply == Completed(request.id)
              && call == Some(BackendCall(SaveFileCall, request.id, request.appId, parentWindow, title, options, SaveFileOptions))
              && request.exported && request.implRequest && request.forSave
              && request.response == old(request.response)
              && request.options == old(request.options) && request.responses == []
  {
    if proxyError.Some? {
      return Failed(ProxyFailure(proxyError.value)), None;
    }
    request.forSave := true;
    request.implRequest := true;
    request.Export();
    call := Some(BackendCall(SaveFileCall, request.id, request.appId, parentWindow, title, options, SaveFileOptions));
    reply := Completed(request.id);
  }

  /**
   * The part the two *_done callbacks share: store the response code (the
   * given fallback when the backend call failed) and, when the call
   * succeeded, the backend's results.
   */
  method StoreAnswer(request: Request, answer: Option<BackendAnswer>, fallback: uint32)
    requires request.Valid()
    requires answer.Some? ==> WellFormedDict(answer.value.results)
    modifies request`response, request`options
    ensures request.Valid()
    ensures request.response == if answer.Some? then answer.value.response else fallback
    ensures request.options == if answer.Some? then Some(answer.value.results) else old(request.options)
  {
    var response := fallback;
    if answer.Some? {
      response := answer.value.response;
    }
    request.response := response;
    if answer.Some? {
      request.options := Some(answer.value.results);
    }
  }

  /** open_file_done: a failed backend call is recorded as response 2. */
  method OpenFileDone(request: Request, answer: Option<BackendAnswer>)
    requires request.Valid()
    requires answer.Some? ==> WellFormedDict(answer.value.results)
    modifies request`response, request`options
    ensures request.Valid()
    ensures request.response == if answer.Some? then answer.value.response else ResponseOther
    ensures answer.None? ==> request.response != 0
    ensures request.options == if answer.Some? then Some(answer.value.results) else old(request.options)
  {
    StoreAnswer(request, answer, ResponseOther);
  }

  /**
   * save_file_done as written: on a failed backend call the response code is
   * whatever the uninitialised variable held, given here as a parameter. The
   * options pointer is taken to be NULL in that case; any other garbage value
   * is undefined behaviour and not modelled.
   */
  method SaveFileDoneAsWritten(request: Request, answer: Option<BackendAnswer>, uninitialised: uint32)
    requires request.Valid()
    requires answer.Some? ==> WellFormedDict(answer.value.results)
    modifies request`response, request`options
    ensures request.Valid()
    ensures request.response == if answer.Some? then answer.value.response else uninitialised
    ensures request.options == if answer.Some? then Some(answer.value.results) else old(request.options)
  {
    StoreAnswer(request, answer, uninitialised);
  }

  /**
   * save_file_done with the response defaulting to 2, as in open_file_done:
   * a failed backend call is never recorded as a success.
   */
  method SaveFileDone(request: Request, answer: Option<BackendAnswer>)
    requires request.Valid()
    requires answer.Some? ==> WellFormedDict(answer.value.results)
    modifies request`response, request`options
    ensures request.Valid()
    ensures request.response == if answer.Some? then answer.value.response else ResponseOther
    ensures answer.None? ==> request.response != 0
    ensures request.options == if answer.Some? then Some(answer.value.results) else old(request.options)
  {
    StoreAnswer(request, answer, ResponseOther);
  }

  /**
   * send_response_in_thread_func: assemble the results and, only if the
   * request is still exported, emit them as its Response and unexport it.
   * Returns the register_document calls made on the way.
   */
  method SendResponse(request: Request, register: Registrar) returns (calls: seq<RegistrationCall>)
    requires request.Valid()
    modifies request`exported, request`responses
    ensures request.Valid() && !request.exported
    ensures old(request.exported) ==>
              request.responses == old(request.responses) + [Response(request.response,
                ResponseResults(request.response, request.BackendResults(), request.appId, request.forSave, register))]
    ensures !old(request.exported) ==> request.responses == old(request.responses)
    ensures request.response != 0 ==> calls == []
    ensures request.response == 0 ==>
              calls == RegistrationCalls(UrisOf(request.BackendResults()), request.appId, request.forSave,
                                         Writable(request.BackendResults()))
  {
    var forSave := request.forSave;
    var response := request.response;
    var options := request.BackendResults();
    var results: Vardict;
    calls := [];
    if response != 0 {
      results := map["uris" := StringArray([])];
    } else {
      var writable := Writable(options);
      var refs;
      refs, calls := RegisterUris(UrisOf(options), request.appId, forSave, writable, register);
      results := map["uris" := StringArray(refs)];
      var choices := Lookup(options, "choices", TArray(ChoiceOptionType));
      if choices.Some? {
        results := results["choices" := choices.value];
      }
    }
    assert results == ResponseResults(response, options, request.appId, forSave, register);
    if request.exported {
      request.responses := request.responses + [Response(response, results)];
      request.Unexport();
    }
  }

  /**
   * One OpenFile request from call to Response, with the backend's answer,
   * an optional close of the request before the answer is processed, and the
   * response task run twice: the call is rejected exactly when its options
   * are invalid, and an accepted request emits exactly one Response unless it
   * was closed first, in which case it emits none.
   */
  method OpenFileRequest(id: string, appId: string, options: Vardict, answer: Option<BackendAnswer>,
                         closedFirst: bool, register: Registrar)
    returns (reply: Reply, emitted: seq<Response>)
    requires WellFormedDict(options)
    requires answer.Some? ==> WellFormedDict(answer.value.results)
    ensures OpenOptionsVerdict(options).Fail? ==>
              reply == Failed(InvalidArgument(OpenOptionsVerdict(options).message)) && emitted == []
    ensures OpenOptionsVerdict(options).Pass? ==> reply == Completed(id)
    ensures OpenOptionsVerdict(options).Pass? && closedFirst ==> emitted == []
    ensures OpenOptionsVerdict(options).Pass? && !closedFirst ==>
              && |emitted| == 1
              && emitted[0].code == (if answer.Some? then answer.value.response else ResponseOther)
              && emitted[0].results == ResponseResults(emitted[0].code, if answer.Some? then answer.value.results else map[],
                                                       appId, false, register)
  {
    var request := new Request(id, appId);
    var call;
    reply, call := HandleOpenFile(request, "", "", options, None);
    if reply.Failed? {
      return reply, request.responses;
    }
    OpenFileDone(request, answer);
    if closedFirst {
      request.Unexport();
    }
    var calls := SendResponse(request, register);
    calls := SendResponse(request, register);
    emitted := request.responses;
  }

  /**
   * One SaveFile request from call to Response, the backend call having
   * succeeded: the call is accepted whatever its options, the URIs are
   * registered for saving, and exactly one Response is emitted.
   */
  method SaveFileRequest(id: string, appId: string, options: Vardict, answer: BackendAnswer, register: Registrar)
    returns (reply: Reply, calls: seq<RegistrationCall>, emitted: seq<Response>)
    requires WellFormedDict(answer.results)
    ensures reply == Completed(id)
    ensures answer.response == 0 ==>
              calls == RegistrationCalls(UrisOf(answer.results), appId, true, Writable(answer.results))
    ensures answer.response != 0 ==> calls == []
    ensures emitted == [Response(answer.response, ResponseResults(answer.response, answer.results, appId, true, register))]
  {
    var request := new Request(id, appId);
    var call;
    reply, call := HandleSaveFile(request, "", "", options, None);
    SaveFileDone(request, Some(answer));
    calls := SendResponse(request, register);
    emitted := request.responses;
  }

  /**
   * With save_file_done as written, a SaveFile whose backend call failed is
   * answered as if the user had cancelled (response 1, no files) when the
   * uninitialised response happens to hold 1: the task goes straight to
   * emitting and never reads the options.
   */
  method FailedSaveReportedAsCancelled(id: string, appId: string, register: Registrar) returns (emitted: seq<Response>)
    ensures emitted == [Response(1, map["uris" := StringArray([])])]
  {
    var request := new Request(id, appId);
    var reply, call := HandleSaveFile(request, "", "", map[], None);
    SaveFileDoneAsWritten(request, None, 1);
    var calls := SendResponse(request, register);
    emitted := request.responses;
  }

  /** With the corrected save_file_done, the same failure is answered with response 2. */
  method FailedSaveReportedAsFailure(id: string, appId: string, register: Registrar) returns (emitted: seq<Response>)
    ensures emitted == [Response(ResponseOther, map["uris" := StringArray([])])]
  {
    var request := new Request(id, appId);
    var reply, call := HandleSaveFile(request, "", "", map[], None);
    SaveFileDone(request, None);
    var calls := SendResponse(request, register);
    emitted := request.responses;
  }
}
