# WikiTree API client: query encoding and response envelope

This project models the two pieces of logic in the Go WikiTree API client
(package `wikiclient`):

- **The getProfile query encoder** (`genGetProfileParams`). It turns a
  request into a URL query suffix. The suffix starts with `?action=<action>`.
  It then appends `&key=`, `&fields=`, `&bioFormat=` and `&resolveRedirect=`
  in that fixed order, each only when its condition holds. Nothing is escaped.
  Every getter is a plain string, and an unset field reads as `""`.
  `GenGetProfileParams` grows a buffer one write at a time, as the Go code does
  with its `bytes.Buffer`. It is proved equal to `ProfileQuery`, a pure
  specification. `ProfileQuery` is built from a list of `name=value` parameters
  (`ProfileParams`) and a renderer (`QueryString`).
- **Envelope stripping** (the length guard and slice in `executeQuery`). The
  comment in `executeQuery` says the response is a JSON array, with a square
  bracket at its start and at its end. A body of two or more bytes loses its
  first and last byte, whatever they are; a shorter body is kept as it is.
  `StripEnvelope` models this as a function.

`ExecuteQuery` and `GetProfile` connect these two pieces to the HTTP
transport and the JSON decoder. Both of those are function parameters.
Every outcome of `GetProfile` is classified: a failed call, a failed read and
a rejected body are each reported at their own stage.

Two facts about the code shape what the model proves.

- Line 93 of `go/wikiclient/client.go` writes `GetKey()` after the
  `&bioFormat=` label, so the bioFormat parameter carries the request's key,
  not the bioFormat field's own value. The model reproduces this.
  `BioFormatValueIgnored` proves the consequence: the content of a non-empty
  bioFormat never reaches the query. It also means the query cannot always be
  parsed back into the request, so no such round trip is claimed.
- The example program (`go/examples/example.go:21-23`) sets only `Key` and
  never sets `Action`. With the action reading as `""`, its query is
  `?action=&key=Kennedy-21529`. The message schema is not part of this model,
  so no schema default for the action is assumed. The samples with an
  action are the identical strings in the comments at
  `go/wikiclient/client.go:55` and `go/wikiclient/client.go:78`
  (`SampleQuery`).

## Model

| member | source | states |
|---|---|---|
| `WikiClient.GenGetProfileParams` | go/wikiclient/client.go:79-100 | The buffer built by the conditional writes equals the specified query `ProfileQuery(req)` for every request. |
| `WikiClient.ProfileParams` | go/wikiclient/client.go:80-98 | Between one and five parameters are emitted, and the first is always `action` with the request's action. This is only the shape; which parameters appear, with which values and in which order, is proved in `ParamPresence` and `ParamOrder`. |
| `WikiClient.ProfileQueryExpanded` | go/wikiclient/client.go:80-99 | The query is exactly `?action=` + action, then `&key=`+key, `&fields=`+fields, `&bioFormat=`+key and `&resolveRedirect=`+value, in that order, each only when its condition holds. |
| `WikiClient.QueryStartsWithAction` | go/wikiclient/client.go:81-82 | `?action=` followed by the action is a prefix of every query, including when the action is empty. |
| `WikiClient.ActionAndKeyOnly` | go/wikiclient/client.go:78-86 | With a non-empty key and no other optional parameter written, the query is exactly `?action=<action>&key=<key>`. |
| `WikiClient.SampleQuery` | go/wikiclient/client.go:78 | The documented sample, given in the comments at `go/wikiclient/client.go:55` and `go/wikiclient/client.go:78`: action `getProfile` and key `Mustardo-1` give `?action=getProfile&key=Mustardo-1`. |
| `WikiClient.ExampleProgramQuery` | go/examples/example.go:21-23 | The example program's key-only request, with the action reading as empty, gives `?action=&key=Kennedy-21529`. |
| `WikiClient.ParamPresence` | go/wikiclient/client.go:81-98 | For every name: `action` is always present. `key`, `fields` and `bioFormat` are present iff their field is non-empty. `resolveRedirect` is present iff its value is non-empty and not `"1"`. No other name is present. Each carries its own field's value, except `bioFormat`, which carries the key. |
| `WikiClient.ParamOrder` | go/wikiclient/client.go:80-98 | The emitted parameters follow the fixed order action, key, fields, bioFormat, resolveRedirect, and none appears twice. |
| `WikiClient.ProfileQueryLength` | go/wikiclient/client.go:80-99 | The query's length is 8 plus the action's length, plus 5, 8, 11 and 17 plus the written value's length for each optional parameter that is written. |
| `WikiClient.QueryStringAmpersands` | go/wikiclient/client.go:83-98 | If no parameter name or value contains `&`, a rendered query holds exactly one `&` per parameter after the first. |
| `WikiClient.ProfileQueryAmpersands` | go/wikiclient/client.go:83-98 | If the action, key, fields and resolveRedirect contain no `&`, the query holds exactly one `&` per optional parameter written, so an omitted parameter leaves no stray `&`. |
| `WikiClient.BioFormatValueIgnored` | go/wikiclient/client.go:91-94 | Replacing a non-empty bioFormat with any other non-empty value leaves the query unchanged, because the key is written in its place. |
| `WikiClient.StripEnvelope` | go/wikiclient/client.go:70-72 | A body of at least 2 bytes yields its bytes from the second to the second-to-last, with length n-2. A shorter body is returned unchanged. |
| `WikiClient.StripEnds` | go/wikiclient/client.go:70-72 | Stripping removes one byte at each end whatever those bytes are; brackets are not checked. |
| `WikiClient.StripWrapped` | go/wikiclient/client.go:66-72 | Stripping `[` + s + `]` gives back s for every byte sequence s. |
| `WikiClient.WrapStripped` | go/wikiclient/client.go:66-72 | A body that starts with `[` and ends with `]` is the bracket wrapping of what stripping leaves. |
| `WikiClient.ExecuteQuery` | go/wikiclient/client.go:57-74 | The GET goes to endpoint + params. A failed call or a failed read is an error at that stage. A body is returned stripped of its envelope. |
| `WikiClient.GetProfile` | go/wikiclient/client.go:35-52 | The lookup succeeds iff the transport returns a body for endpoint + the encoded query and the decoder accepts the stripped body. The result is then the decoder's value. Otherwise the error names the failing stage: calling the endpoint, reading the response, or unmarshalling for any body the decoder rejects. |
| `WikiClient.GetProfileDecodesWrappedObject` | go/wikiclient/client.go:35-72 | When the server answers the encoded URL with `[` + json + `]`, the decoder sees exactly json, and the decoder's verdict is the result. |
| `WikiClient.GetProfileTransportFailure` | go/wikiclient/client.go:36-39 | A transport failure is reported at its own stage (calling the endpoint, or reading the response), and the decoder is not used. |

## Left out

- The HTTP GET and the body read (`go/wikiclient/client.go:58-65`) are network I/O. They are the `transport` parameter, which returns a body or says which of the two steps failed.
- JSON-to-message decoding with protojson (`DiscardUnknown`, `AllowPartial`, `go/wikiclient/client.go:43-50`) is a foreign library. It is the opaque `unmarshal` parameter. Tolerance of unknown or missing fields is not modelled.
- Printing the raw response (`go/wikiclient/client.go:40-41`) is output only.
- The messages added by `errors.Wrap` are reduced to the failing stage (`Failure`).
- The unused context and call-option parameters of `GetProfile` carry no behaviour.
- `New` and `defaultEndpoint` (`go/wikiclient/client.go:17-31`) are trivial construction. The endpoint is a parameter of `ExecuteQuery` and `GetProfile`.
- URL escaping and parsing a query back into a request are absent. The code does neither, and the bioFormat behaviour makes recovery impossible in general.
- The message schema of `GetProfileRequest`/`GetProfileResponse` is not part of this model. Requests are five strings, and responses are the decoder's type parameter.
- `go/examples/example.go` is a demonstration entry point that only prints and exits. Only its request is used, in `ExampleProgramQuery`.
- ProfileQueryLength: counts characters of `seq<char>`, whereas Go's `len` counts UTF-8 bytes. The two agree for ASCII parameter values only.
