/** The client session `Proof_Of_Weights`: it submits reward-function inputs
    to one validator, remembers the fingerprint of the last submission and
    asks for the proof under that fingerprint. The HTTP exchange is a
    `transport` function from the request sent to the response received. */
module Session {
  import opened Values
  import opened InputHash
  import opened Signing

  /** A URL by the arguments given to yarl's builders: `URL.build` gives the
      scheme, host and port, `with_path` the path argument as passed, and
      `with_query` the query pairs. Quoting, the leading '/' of the path and
      the rendering to a string are left to `renderUrl`. No fragment is ever
      set, so none is modelled. */
  datatype Url = Url(scheme: string, host: string, port: int, path: string, query: seq<(string, string)>)

  /** `URL.with_path`: the path argument, with the query dropped. */
  function WithPath(u: Url, path: string): Url {
    u.(path := path, query := [])
  }

  /** `URL.with_query`: the query replaced. */
  function WithQuery(u: Url, query: seq<(string, string)>): Url {
    u.(query := query)
  }

  datatype HttpRequest =
    | Post(url: string, headers: map<string, string>, body: string)
    | Get(url: string, headers: map<string, string>)

  /** The status code and the body; a body that is not JSON is None. */
  datatype HttpResponse = HttpResponse(status: int, body: Option<Json>)

  /** The foreign functions the client calls besides hashing and signing. */
  datatype Foreign = Foreign(hashing: Hashing, jsonDumps: Mapping -> string,
                             b64encode: seq<byte> -> string, renderUrl: Url -> string)

  const SubmitPath: string := "submit-inputs"
  const ProofPath: string := "get-proof-of-weights"
  const ContentTypeHeader: string := "Content-Type"

  /** The validator echoes the local fingerprint: status 200 and a JSON
      object whose "hash" member is that string. */
  predicate Echoes(response: HttpResponse, local: string): (r: bool)
    ensures r ==> response.status == 200 && response.body.Some? && response.body.value.JObject?
                  && ("hash", JString(local)) in response.body.value.members
  {
    && response.status == 200
    && response.body.Some?
    && response.body.value.JObject?
    && DictGet(response.body.value.members, "hash") == Some(JString(local))
  }

  /** What `submit_inputs` makes of the validator's response, given the
      fingerprint it stored before sending. */
  function CheckSubmission(response: HttpResponse, local: string): (r: Call<string>)
    ensures response.status != 200 ==> r == Returned("")
    ensures r.Raised? <==> response.status == 200 && !(response.body.Some? && response.body.value.JObject?)
    ensures r.Raised? ==> (r.error == JsonDecodeError <==> response.body.None?)
    ensures r.Returned? ==> r.value == "" || r.value == local
    ensures Echoes(response, local) ==> r == Returned(local)
    ensures local != "" ==> (r == Returned(local) <==> Echoes(response, local))
  {
    if response.status != 200 then Returned("")
    else if response.body.None? then Raised(JsonDecodeError)
    else if !response.body.value.JObject? then Raised(AttributeError)
    else if DictGet(response.body.value.members, "hash") != Some(JString(local)) then Returned("")
    else Returned(local)
  }

  /** What `get_proof` makes of the validator's response. */
  function ReadProof(response: HttpResponse): (r: Call<Json>)
    ensures response.status != 200 ==> r == Returned(JObject([]))
    ensures response.status == 200 ==> (r.Raised? <==> response.body.None?)
    ensures response.status == 200 && response.body.Some? ==> r == Returned(response.body.value)
  {
    if response.status != 200 then Returned(JObject([]))
    else if response.body.None? then Raised(JsonDecodeError)
    else Returned(response.body.value)
  }

  class ProofOfWeights {
    const netuid: int
    const hotkey: Hotkey
    const foreign: Foreign
    const baseUrl: Url
    var lastInputHash: string
    /** The inputs of the last submission, if any. */
    ghost var lastSubmitted: Option<Mapping>

    /** The session is in one of two states: nothing submitted and an empty
        stored fingerprint, or the fingerprint of the last inputs submitted. */
    ghost predicate Valid()
      reads this
    {
      match lastSubmitted
      case None => lastInputHash == ""
      case Some(m) => lastInputHash == HashInputs(foreign.hashing, m)
    }

    /** The validator's address arrives as host and port; the wallet as its
        hotkey. */
    constructor (netuid: int, host: string, port: int, hotkey: Hotkey, foreign: Foreign)
      ensures Valid() && lastSubmitted == None && lastInputHash == ""
      ensures this.netuid == netuid && this.hotkey == hotkey && this.foreign == foreign
      ensures baseUrl == Url("http", host, port, "", [])
    {
      this.netuid := netuid;
      this.hotkey := hotkey;
      this.foreign := foreign;
      this.baseUrl := Url("http", host, port, "", []);
      lastInputHash := "";
      lastSubmitted := None;
    }

    /** `self.get_signature_headers`: signed with this session's hotkey and
        netuid. */
    function Headers(url: string, data: string, requestTime: string): (h: map<string, string>)
      ensures h.Keys == {DatetimeHeader, SignatureHeader, NetuidHeader, AddressHeader}
      ensures h[DatetimeHeader] == requestTime
      ensures h[NetuidHeader] == Decimal.IntToString(netuid)
      ensures h[AddressHeader] == hotkey.ss58Address
      ensures h[SignatureHeader] == foreign.b64encode(hotkey.sign(Payload(url, requestTime, netuid, data)))
    {
      SignatureHeaders(hotkey, foreign.b64encode, netuid, url, data, requestTime)
    }

    /** The POST that `submit_inputs` sends for these inputs. */
    function SubmitRequest(inputs: Mapping, requestTime: string): (req: HttpRequest)
      ensures req.Post?
      ensures req.url == foreign.renderUrl(WithPath(baseUrl, SubmitPath))
      ensures req.body == foreign.jsonDumps(inputs)
      ensures req.headers.Keys == {ContentTypeHeader} + Headers(req.url, req.body, requestTime).Keys
      ensures req.headers[ContentTypeHeader] == "application/json"
      ensures forall k :: k in Headers(req.url, req.body, requestTime) ==>
                req.headers[k] == Headers(req.url, req.body, requestTime)[k]
    {
      var url := foreign.renderUrl(WithPath(baseUrl, SubmitPath));
      var body := foreign.jsonDumps(inputs);
      Post(url, map[ContentTypeHeader := "application/json"] + Headers(url, body, requestTime), body)
    }

    /** The URL `get_proof` asks: the same validator, the proof path, and the
        fingerprint as the only query parameter. */
    function ProofUrl(inputHash: string): (u: Url)
      ensures u.scheme == baseUrl.scheme && u.host == baseUrl.host && u.port == baseUrl.port
      ensures u.path == ProofPath && u.query == [("input_hash", inputHash)]
    {
      WithQuery(WithPath(baseUrl, ProofPath), [("input_hash", inputHash)])
    }

    /** The GET that `get_proof` sends for a stored fingerprint; it is signed
        with an empty body. */
    function ProofRequest(inputHash: string, requestTime: string): (req: HttpRequest)
      ensures req.Get?
      ensures req.url == foreign.renderUrl(ProofUrl(inputHash))
      ensures req.headers.Keys == {DatetimeHeader, SignatureHeader, NetuidHeader, AddressHeader}
      ensures req.headers[DatetimeHeader] == requestTime
      ensures req.headers[NetuidHeader] == Decimal.IntToString(netuid)
      ensures req.headers[AddressHeader] == hotkey.ss58Address
      ensures ReconstructPayload(req.url, "", req.headers) == Some(Payload(req.url, requestTime, netuid, ""))
      ensures req.headers[SignatureHeader] == foreign.b64encode(hotkey.sign(Payload(req.url, requestTime, netuid, "")))
    {
      var url := foreign.renderUrl(ProofUrl(inputHash));
      Get(url, Headers(url, "", requestTime))
    }

    /** `submit_inputs`: the fingerprint is stored before the request is
        sent, whatever the response turns out to be. */
    method SubmitInputs(inputs: Mapping, requestTime: string, transport: HttpRequest -> HttpResponse)
      returns (result: Call<string>)
      requires Valid()
      modifies this
      ensures Valid() && lastSubmitted == Some(inputs)
      ensures lastInputHash == HashInputs(foreign.hashing, inputs)
      ensures result == CheckSubmission(transport(SubmitRequest(inputs, requestTime)), lastInputHash)
    {
      lastInputHash := HashInputs(foreign.hashing, inputs);
      lastSubmitted := Some(inputs);
      var inputStr := foreign.jsonDumps(inputs);
      var url := foreign.renderUrl(WithPath(baseUrl, SubmitPath));
      var headers := map[ContentTypeHeader := "application/json"] + Headers(url, inputStr, requestTime);
      var response := transport(Post(url, headers, inputStr));
      if response.status != 200 {
        return Returned("");
      }
      if response.body.None? {
        return Raised(JsonDecodeError);
      }
      var data := response.body.value;
      if !data.JObject? {
        return Raised(AttributeError);
      }
      if DictGet(data.members, "hash") != Some(JString(lastInputHash)) {
        return Returned("");
      }
      return Returned(lastInputHash);
    }

    /** `get_proof`: asks under the stored fingerprint and leaves it as it is. */
    method GetProof(requestTime: string, transport: HttpRequest -> HttpResponse) returns (result: Call<Json>)
      ensures result == ReadProof(transport(ProofRequest(lastInputHash, requestTime)))
    {
      var url := foreign.renderUrl(WithQuery(WithPath(baseUrl, ProofPath), [("input_hash", lastInputHash)]));
      var response := transport(Get(url, Headers(url, "", requestTime)));
      if response.status != 200 {
        return Returned(JObject([]));
      }
      if response.body.None? {
        return Raised(JsonDecodeError);
      }
      return Returned(response.body.value);
    }

    /** The body that is signed is the body that is sent, and the headers
        that are sent rebuild the payload that was signed. */
    lemma SubmitSignsSentBody(inputs: Mapping, requestTime: string)
      ensures var req := SubmitRequest(inputs, requestTime);
        && ReconstructPayload(req.url, req.body, req.headers) == Some(Payload(req.url, requestTime, netuid, req.body))
        && req.headers[SignatureHeader] == foreign.b64encode(hotkey.sign(Payload(req.url, requestTime, netuid, req.body)))
        && req.headers[AddressHeader] == hotkey.ss58Address
    {
      var req := SubmitRequest(inputs, requestTime);
      HeadersRebuildPayload(hotkey, foreign.b64encode, netuid, req.url, req.body, requestTime);
    }

    /** With a real SHA-256, the stored fingerprint tells the two states apart:
        it is empty exactly when nothing was submitted. */
    lemma StoredHashTellsState()
      requires Valid() && DigestWellFormed(foreign.hashing)
      ensures lastInputHash == "" <==> lastSubmitted == None
    {
    }

    /** With a real SHA-256, the empty string never coincides with success:
        a submission returns its fingerprint exactly when the validator
        echoed it. */
    lemma SubmissionOutcomeIsUnambiguous(inputs: Mapping, response: HttpResponse)
      requires DigestWellFormed(foreign.hashing)
      ensures var local := HashInputs(foreign.hashing, inputs);
        && (CheckSubmission(response, local) == Returned(local) <==> Echoes(response, local))
        && (CheckSubmission(response, local) == Returned("") <==> !Echoes(response, local) && !CheckSubmission(response, local).Raised?)
    {
    }
  }

  /** Submitting and then asking for the proof, against a validator that
      echoes the fingerprint it is sent under and holds a proof for it. */
  method SubmitThenFetch(netuid: int, host: string, port: int, hotkey: Hotkey, foreign: Foreign,
                         inputs: Mapping, proof: Json, t1: string, t2: string)
    returns (submitted: Call<string>, fetched: Call<Json>, stored: string)
    ensures stored == HashInputs(foreign.hashing, inputs)
    ensures submitted == Returned(stored) && fetched == Returned(proof)
  {
    var client := new ProofOfWeights(netuid, host, port, hotkey, foreign);
    var fp := HashInputs(foreign.hashing, inputs);
    var proofUrl := foreign.renderUrl(client.ProofUrl(fp));
    var validator := (req: HttpRequest) =>
      if req.Post? then HttpResponse(200, Some(JObject([("hash", JString(fp))])))
      else if req.url == proofUrl then HttpResponse(200, Some(proof))
      else HttpResponse(404, None);
    submitted := client.SubmitInputs(inputs, t1, validator);
    fetched := client.GetProof(t2, validator);
    stored := client.lastInputHash;
  }
}
