/**
 * The Request object of one portal call, as far as the file chooser uses it:
 * its handle and caller, whether it is exported on the bus, the data the
 * file chooser attaches to it ("for-save", "response", "options"), and the
 * Response signals emitted on it.
 */
module Requests {
  import opened GVariant

  /** A Response signal: (response code, results dictionary). */
  datatype Response = Response(code: uint32, results: Vardict)

  class Request {
    /** The object path under which the request is exported; the call returns it. */
    const id: string
    /** The caller's application id. */
    const appId: string
    /** Whether the request is reachable on the bus (and may still answer). */
    var exported: bool
    /** Whether request_set_impl_request attached the backend's request object. */
    var implRequest: bool
    /** The "for-save" data; absent data reads as FALSE. */
    var forSave: bool
    /** The "response" data; absent data reads as 0. */
    var response: uint32
    /** The "options" data: the backend's results, once it has answered. */
    var options: Option<Vardict>
    /** The Response signals emitted on this request, oldest first. */
    var responses: seq<Response>

    /** At most one Response ever, and none while the request is still exported. */
    ghost predicate Valid()
      reads this
    {
      && |responses| <= 1
      && (exported ==> responses == [] && implRequest)
      && (options.Some? ==> WellFormedDict(options.value))
    }

    /** The backend's results as send_response_in_thread_func reads them; empty while absent. */
    function BackendResults(): (d: Vardict)
      reads this
      requires Valid()
      ensures WellFormedDict(d)
      ensures options.Some? ==> d == options.value
    {
      if options.Some? then options.value else map[]
    }

    /** A new request for a call from the given application; not yet exported. */
    constructor (id: string, appId: string)
      ensures Valid()
      ensures this.id == id && this.appId == appId
      ensures !exported && !implRequest && !forSave && response == 0 && options == None && responses == []
    {
      this.id := id;
      this.appId := appId;
      exported := false;
      implRequest := false;
      forSave := false;
      response := 0;
      options := None;
      responses := [];
    }

    /** request_export: make the request reachable on the bus. */
    method Export()
      requires Valid() && implRequest && responses == []
      modifies this`exported
      ensures Valid() && exported
    {
      exported := true;
    }

    /**
     * request_unexport: take the request off the bus. It may follow the
     * emission of the Response, so it does not need responses to be empty.
     */
    method Unexport()
      requires |responses| <= 1 && (options.Some? ==> WellFormedDict(options.value))
      modifies this`exported
      ensures Valid() && !exported
    {
      exported := false;
    }
  }
}
