/**
 * An HTTP client (`Http::Client`) on top of the low-level client that parses responses. The
 * parser calls back as a response arrives; the client assembles the headers, the transfer
 * encoding and the entity, and hands each complete response, and the connection event, to the
 * job dispatcher as a job filed under the client.
 *
 * The dispatcher is a ghost sequence of enqueued jobs and what the client asks of its connection
 * is a ghost sequence of effects. The response parser and the application callbacks
 * (`on_sync_connect`, `on_sync_response`) are outside the model: how they end is a parameter.
 */
module Http {
  import opened Common
  import OptionalMap

  /** Identity of a client; it is the category of the client's jobs. */
  type ClientId = nat

  /** A response's status line and its header multimap, in iteration order. */
  datatype ResponseHeaders = ResponseHeaders(statusCode: nat, reason: string, headers: seq<OptionalMap.Entry>)

  /** The headers left behind once moved from: the reason and the header map are emptied. */
  function MovedFrom(h: ResponseHeaders): (r: ResponseHeaders)
    ensures r.statusCode == h.statusCode && r.reason == "" && r.headers == []
  {
    ResponseHeaders(h.statusCode, "", [])
  }

  datatype Job =
    | ConnectJob(category: ClientId)
    | ResponseJob(category: ClientId, response: ResponseHeaders, transferEncoding: string, entity: Bytes)

  /** What the client asks of its connection. */
  datatype Effect =
    | LowLevelConnect  // `LowLevelClient::on_connect()`
    | ForceShutdown

  /** How an application callback ended. */
  datatype Outcome = Returned | Threw

  /** `really_perform`'s callback for a job: `on_sync_connect` or `on_sync_response`, ending as `app` says. */
  datatype Performed = Performed(effects: seq<Effect>, rethrown: bool)

  /**
   * `SyncJobBase::perform()`: nothing if the client is gone; otherwise the callback runs, and
   * whatever it throws forces the connection shut and is thrown on.
   */
  function PerformJob(clientAlive: bool, app: Outcome): (r: Performed)
    ensures r.rethrown <==> clientAlive && app == Threw
    ensures r.effects == [] <==> !r.rethrown
    ensures r.rethrown ==> r.effects == [ForceShutdown]
  {
    if clientAlive && app == Threw then Performed([ForceShutdown], true) else Performed([], false)
  }

  /** Response headers with the trailers appended one by one, in iteration order. */
  function WithTrailers(h: ResponseHeaders, trailers: seq<OptionalMap.Entry>): (r: ResponseHeaders)
    ensures r.statusCode == h.statusCode && r.reason == h.reason
    decreases |trailers|
  {
    if trailers == [] then h
    else
      var last := trailers[|trailers| - 1];
      var h' := WithTrailers(h, trailers[..|trailers| - 1]);
      ResponseHeaders(h'.statusCode, h'.reason, OptionalMap.Append(h'.headers, last.0, last.1))
  }

  /** Appending trailers keeps every earlier header and adds the trailers after them, in order. */
  lemma {:induction false} WithTrailersAppends(h: ResponseHeaders, trailers: seq<OptionalMap.Entry>)
    ensures WithTrailers(h, trailers).headers == h.headers + trailers
    decreases |trailers|
  {
    if trailers != [] {
      var init := trailers[..|trailers| - 1];
      WithTrailersAppends(h, init);
      var last := trailers[|trailers| - 1];
      var m := WithTrailers(h, init).headers;
      var m' := WithTrailers(h, trailers).headers;
      assert m' == OptionalMap.Append(m, last.0, last.1);
      assert m' == m + [last];
      assert trailers == init + [last];
    }
  }

  /** Under each name, the values after the trailers are the earlier values followed by the trailer values. */
  lemma TrailerValues(h: ResponseHeaders, trailers: seq<OptionalMap.Entry>, key: string)
    ensures OptionalMap.Range(WithTrailers(h, trailers).headers, key)
      == OptionalMap.Range(h.headers, key) + OptionalMap.Range(trailers, key)
  {
    WithTrailersAppends(h, trailers);
    OptionalMap.RangeConcat(h.headers, trailers, key);
  }

  class Client {
    const id: ClientId
    var response: ResponseHeaders
    var transferEncoding: string
    var entity: Bytes
    /** Jobs handed to the dispatcher, oldest first. */
    ghost var jobs: seq<Job>
    /** Requests made to the connection, oldest first. */
    ghost var effects: seq<Effect>

    /** Every job of this client is filed under the client itself. */
    ghost predicate Valid()
      reads this
    {
      forall j :: j in jobs ==> j.category == id
    }

    /** The connection set-up of the constructors is not modelled; the accumulators start empty. */
    constructor (clientId: ClientId)
      ensures id == clientId && response == ResponseHeaders(0, "", []) && transferEncoding == "" && entity == []
      ensures jobs == [] && effects == [] && Valid()
    {
      id := clientId;
      response, transferEncoding, entity := ResponseHeaders(0, "", []), "", [];
      jobs, effects := [], [];
    }

    /** `on_connect()`: a connect job is enqueued before the low-level client handles the event. */
    method OnConnect()
      requires Valid()
      modifies this
      ensures Valid()
      ensures jobs == old(jobs) + [ConnectJob(id)]
      ensures effects == old(effects) + [LowLevelConnect]
      ensures response == old(response) && transferEncoding == old(transferEncoding) && entity == old(entity)
    {
      jobs := jobs + [ConnectJob(id)];
      effects := effects + [LowLevelConnect];
    }

    /**
     * `on_low_level_response_headers(headers, encoding, length)`: a new response replaces the
     * stored headers and encoding and empties the entity; the content length is unused.
     */
    method OnResponseHeaders(headers: ResponseHeaders, encoding: string, contentLength: nat)
      modifies this
      ensures response == headers && transferEncoding == encoding && entity == []
      ensures jobs == old(jobs) && effects == old(effects)
    {
      response := headers;
      transferEncoding := encoding;
      entity := [];
    }

    /** `on_low_level_response_entity(offset, chunked, data)`: the chunk goes at the end, whatever the offset. */
    method OnResponseEntity(entityOffset: nat, isChunked: bool, data: Bytes)
      modifies this
      ensures entity == old(entity) + data
      ensures response == old(response) && transferEncoding == old(transferEncoding)
      ensures jobs == old(jobs) && effects == old(effects)
    {
      entity := entity + data;
    }

    /**
     * `on_low_level_response_end(length, chunked, trailers)`: the trailers are appended to the
     * headers, then one response job takes the headers, the encoding and the entity, which are
     * moved out; the response is reported handled.
     */
    method OnResponseEnd(contentLength: nat, isChunked: bool, trailers: seq<OptionalMap.Entry>) returns (handled: bool)
      requires Valid()
      modifies this
      ensures Valid() && handled
      ensures jobs == old(jobs) + [ResponseJob(id, WithTrailers(old(response), trailers), old(transferEncoding), old(entity))]
      ensures response == MovedFrom(old(response)) && transferEncoding == "" && entity == []
      ensures effects == old(effects)
    {
      var headers := response;
      var i := 0;
      while i < |trailers|
        invariant 0 <= i <= |trailers|
        invariant headers == WithTrailers(response, trailers[..i])
      {
        assert trailers[..i + 1][..i] == trailers[..i];
        headers := headers.(headers := OptionalMap.Append(headers.headers, trailers[i].0, trailers[i].1));
        i := i + 1;
      }
      assert trailers[..i] == trailers;
      jobs := jobs + [ResponseJob(id, headers, transferEncoding, entity)];
      response, transferEncoding, entity := MovedFrom(response), "", [];
      handled := true;
    }
  }

  /**
   * The dispatcher running a job of `client`: null once the client is gone. The client's effects
   * grow by exactly what `PerformJob` describes.
   */
  method Perform(job: Job, client: Client?, app: Outcome) returns (rethrown: bool)
    modifies client
    ensures client == null ==> !rethrown
    ensures client != null ==>
      && client.effects == old(client.effects) + PerformJob(true, app).effects
      && rethrown == PerformJob(true, app).rethrown
      && client.jobs == old(client.jobs) && client.entity == old(client.entity)
      && client.response == old(client.response) && client.transferEncoding == old(client.transferEncoding)
  {
    if client == null {
      return false;
    }
    var p := PerformJob(true, app);
    client.effects := client.effects + p.effects;
    rethrown := p.rethrown;
  }
}
