# Proof-of-weights client, modelled in Dafny

This project models the request protocol of the proof-of-weights SDK client,
the `Proof_Of_Weights` class and `_hash_inputs`. The client submits
reward-function inputs to a validator on the Omron subnet and remembers the
inputs' fingerprint. It later asks the validator for the proof stored under
that fingerprint.

- `values.dfy` (module `Values`): JSON values, `Option`, and `Call`. A `Call`
  is either a value that was returned or a Python exception that was raised.
- `input_hash.dfy` (module `InputHash`): the fingerprint. The inputs are an
  insertion-ordered sequence of (key, value) entries. The fingerprint drops the
  volatile keys `validator_uid`, `nonce` and `uid_responsible_for_proof`, then
  hashes Python's `str()` of what remains. Lemmas show four things:
  - the filter keeps exactly the other entries, unchanged and in order;
  - filtering twice is the same as filtering once;
  - a volatile entry cannot change the fingerprint, whether it is added,
    removed or holds a different value;
  - every kept key, and the order of the kept entries, can change the filtered
    mapping.
- `decimal.dfy` (module `Decimal`): Python's `str()` of an integer, which the
  netuid goes through. It is proved to read back to the same integer.
- `signing.dfy` (module `Signing`): the signed payload `url + request_time +
  str(netuid) + data` and the four signature headers. The headers carry the
  time and netuid that went into the payload. With the other parts fixed, the
  payload determines the URL, the body and the netuid.
- `session.dfy` (module `Session`): class `ProofOfWeights`, with the mutable
  field `lastInputHash` and two methods:
  - `SubmitInputs` stores the new fingerprint before sending, whatever the
    response turns out to be;
  - `GetProof` asks under the stored fingerprint and does not change it.

  A ghost field `lastSubmitted` gives the two states of a session. In the
  first, nothing has been submitted and the stored fingerprint is `""`. In the
  second, it is the fingerprint of the last inputs submitted.

Foreign code is passed in as function values:
- Python `str()` of a dict, the SHA-256 hex digest, `json.dumps`, base64,
  yarl's URL rendering and the hotkey's signing function.
- The HTTP exchange is a `transport` function from the request sent to the
  response received.
- The formatted clock reading is a `requestTime` parameter.
- The validator's address is the constructor's host and port.

Behaviour of this client worth knowing:
- Requests are signed with a timestamp: the headers are `X-Request-Datetime`,
  `X-Request-Signature`, `X-Netuid` and `X-ss58-Address`, and the signed
  payload contains the netuid.
- `get_proof` takes no fingerprint argument. It always uses the stored one,
  which is `""` before any submission.
- The two failures of `submit_inputs` (a non-200 status, a mismatched hash)
  both return `""`. The caller cannot tell them apart.
- A successful submission can still be told apart from a failure, because a
  real SHA-256 digest is never empty (`SubmissionOutcomeIsUnambiguous`).
- In `submit_inputs`, a 200 response whose body is not JSON raises, and so
  does one whose body is JSON but not an object. The model returns `Raised`
  for both. `get_proof` raises only on a 200 body that is not JSON. Otherwise
  it returns the decoded body, whether or not it is an object.

## Model

| member | source | states |
|---|---|---|
| Values.DictGet | proof_of_weights/main.py:116 | `dict.get` finds nothing exactly when no member has the key; otherwise it finds the value of the last member with that key, the one `json.loads` keeps |
| InputHash.Filter | proof_of_weights/main.py:152-156 | an entry is in the filtered mapping exactly when it is in the input and its key is not volatile, with its value unchanged; the result is no longer than the input |
| InputHash.FilterConcat | proof_of_weights/main.py:152-156 | the filter works entry by entry: filtering `a + b` is filtering `a` followed by filtering `b` |
| InputHash.FilterIdempotent | proof_of_weights/main.py:152-156 | filtering an already filtered mapping returns it unchanged |
| InputHash.FilterSource | proof_of_weights/main.py:152-156 | each entry of the result is found at some position of the input |
| InputHash.FilterKeepsOrder | proof_of_weights/main.py:152-156 | any two entries of the result occur in the input in the same relative order (insertion order is kept) |
| InputHash.FilterKeepsDistinctKeys | proof_of_weights/main.py:152-156 | a dict with distinct keys filters to a dict with distinct keys |
| InputHash.FilterDropsValidatorUid | tests.py:65-77 | on keys from the repository's test input, `validator_uid` is dropped, `uid` is kept and order is preserved |
| InputHash.HashInputs | proof_of_weights/main.py:142-157 | the fingerprint is the SHA-256 hex digest of `str()` of the filtered mapping; when SHA-256 yields 64 lowercase hex characters, so does the fingerprint, which is therefore never `""` |
| InputHash.HashInputsIgnoresVolatileEntry | proof_of_weights/main.py:152-157 | inserting (or removing) an entry with a volatile key anywhere leaves the fingerprint unchanged |
| InputHash.HashInputsIgnoresVolatileValue | proof_of_weights/main.py:152-157 | changing the value under a volatile key leaves the fingerprint unchanged |
| InputHash.FilterSeesKeptValue | proof_of_weights/main.py:152-156 | changing the value under any other key changes the mapping that is hashed |
| InputHash.FilterSeesOrder | proof_of_weights/main.py:152-156 | swapping two different adjacent kept entries changes the mapping that is hashed (the fingerprint depends on the order) |
| Decimal.NatToString | proof_of_weights/main.py:86 | `str()` of a non-negative int is a non-empty string of digits, starting with '0' only for zero |
| Decimal.NatToStringValue | proof_of_weights/main.py:86 | the digits `str()` writes for a non-negative int denote that int |
| Decimal.IntToString | proof_of_weights/main.py:86 | `str()` of an int is non-empty and starts with '-' exactly for negative numbers |
| Decimal.IntToStringRoundTrip | proof_of_weights/main.py:81-86 | reading back `str(netuid)` as a decimal gives netuid |
| Decimal.IntToStringInjective | proof_of_weights/main.py:81-86 | different netuids render to different strings |
| Signing.Payload | proof_of_weights/main.py:81 | the signed string starts with the URL, then holds the request time, then `str(netuid)`, and ends with the body |
| Signing.SignatureHeaders | proof_of_weights/main.py:70-88 | exactly the four headers; the datetime header is the request time, the netuid header is `str(netuid)` and reads back as the netuid, the address is the hotkey's, the signature is the base64 of the hotkey's signature of the payload |
| Signing.HeadersRebuildPayload | proof_of_weights/main.py:81-88 | the URL, the body and the headers rebuild exactly the payload that was signed |
| Signing.PayloadBindsUrl | proof_of_weights/main.py:81 | with time, netuid and body fixed, two payloads are equal exactly when the URLs are |
| Signing.PayloadBindsBody | proof_of_weights/main.py:81 | with URL, time and netuid fixed, two payloads are equal exactly when the bodies are |
| Signing.PayloadBindsNetuid | proof_of_weights/main.py:81 | with URL, time and body fixed, two payloads are equal exactly when the netuids are |
| Session.Echoes | proof_of_weights/main.py:108-116 | the validator echoes a fingerprint only with status 200 and a JSON object that has a `hash` member holding that string |
| Session.CheckSubmission | proof_of_weights/main.py:108-123 | a non-200 status gives `""`; a 200 response raises exactly when its body is not a JSON object (a decode error exactly when it is not JSON); any returned value is `""` or the local fingerprint; an echoed fingerprint is returned, and for a non-empty fingerprint only then |
| Session.ReadProof | proof_of_weights/main.py:136-139 | a non-200 status gives `{}`; a 200 status raises exactly when the body is not JSON, and otherwise returns the decoded body |
| Session.ProofOfWeights.constructor | proof_of_weights/main.py:46-68 | the session starts with nothing submitted and an empty stored fingerprint; base URL `http://host:port` with no path |
| Session.ProofOfWeights.Headers | proof_of_weights/main.py:70-88 | the session's signature headers: exactly the four headers, with the request time, the session's `str(netuid)`, the session hotkey's address, and base64 of the session hotkey's signature of the payload |
| Session.ProofOfWeights.SubmitRequest | proof_of_weights/main.py:95-107 | a POST to the submit-inputs URL; its body is the `json.dumps` string; its headers are `Content-Type: application/json` together with the signature headers over that same URL and body |
| Session.ProofOfWeights.ProofUrl | proof_of_weights/main.py:129-131 | same scheme, host and port as the base URL; the path argument `get-proof-of-weights`; the only query parameter is `input_hash` set to the given fingerprint |
| Session.ProofOfWeights.ProofRequest | proof_of_weights/main.py:129-135 | a GET to the proof URL carrying exactly the four signature headers: the request time, `str(netuid)`, the hotkey's address, and the signature of the payload with an empty body, which the headers rebuild |
| Session.ProofOfWeights.SubmitInputs | proof_of_weights/main.py:90-123 | the stored fingerprint becomes the inputs' fingerprint whatever the response; the result is the verdict of CheckSubmission on the response to SubmitRequest, judged against that new fingerprint |
| Session.ProofOfWeights.GetProof | proof_of_weights/main.py:125-139 | the result is the verdict of ReadProof on the response to the request made under the stored fingerprint; nothing in the session changes |
| Session.ProofOfWeights.SubmitSignsSentBody | proof_of_weights/main.py:96-107 | the body that is signed is the body that is sent; the sent headers rebuild the signed payload and carry the hotkey's address |
| Session.ProofOfWeights.StoredHashTellsState | proof_of_weights/main.py:63-94 | with a real SHA-256, the stored fingerprint is `""` exactly when nothing has been submitted |
| Session.ProofOfWeights.SubmissionOutcomeIsUnambiguous | proof_of_weights/main.py:108-123 | with a real SHA-256, a submission returns its fingerprint exactly when the validator echoed it, and returns `""` exactly when it neither echoed nor raised |
| Session.SubmitThenFetch | proof_of_weights/main.py:90-139 | against a validator that echoes the fingerprint and holds a proof for it, submitting returns the fingerprint, and a following `get_proof` returns that proof |

## Left out

- `get_omron_validator_axon` and the wallet and axon lookup in the constructor: these are ledger and key-store calls. The constructor takes the netuid, the validator's host and port, and the hotkey instead.
- SHA-256, Python `str()` of a dict, `json.dumps`, base64 and sr25519 signing are foreign code, so they are function parameters. sr25519 signing is randomised, and a function gives one signature per payload. Only the signature of the one payload each request signs is used, so this does not matter. The UTF-8 `.encode()` of the payload is folded into the signing function.
- HTTP transport (`requests.post`, `requests.get`), `logger.error` and `print` are I/O. The response is what the `transport` parameter returns for the request built.
- A request that gets no response at all is not modelled: `transport` always returns a response. In the source, `requests.post` or `requests.get` raising (connection failure, time-out) lets the exception escape. For `submit_inputs` this happens after `_last_input_hash` has already been overwritten.
- yarl's rendering of a URL to a string is a function parameter. The model's `Url` holds the arguments given to yarl's builders. Quoting of the path and query, the leading `/` yarl adds to the path, and the rendering itself are all part of that parameter.
- The wall-clock timestamp and its strftime format are not deterministic, so the formatted time is a `requestTime` parameter.
- `submit_inputs` is also annotated as accepting a list. `_hash_inputs` calls `.items()` on it and so fails on a list, so only dicts are modelled.
- A `json.dumps` failure on values it cannot serialise is not modelled: `jsonDumps` is a total function.
- The values inside the inputs are JSON values. A number keeps its text, because the client does no arithmetic on it.
- Input keys are modelled as strings and values by their JSON form. Python inputs that differ only in ways JSON does not keep are one input here, so they get one fingerprint, where `str()` would give two. Examples are a tuple versus a list, or an int key `1` versus the string key `'1'`.
- `tests.py` (downloading, installing, starting a server, creating wallets) and `tests/dummy_api_server.py` (a web endpoint around foreign signature checks) are process control and foreign code. `setup.py` is packaging metadata.
