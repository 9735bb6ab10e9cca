# Tracking pixel endpoint — a Dafny model

This project models the decision logic of a small Go package. The package serves a
1×1 transparent GIF over HTTP and reports each fetch to a user-supplied callback as an
`OpenEvent`. It also builds the link that callers embed as the image source. The model
covers four parts:

- **Link generator** (`Tracker.GenerateLink`). The scheme is `http` when the configured
  domain is exactly one of `localhost`, `localhost:<port>`, `127.0.0.1` or
  `127.0.0.1:<port>`, with the port written as Go's `fmt.Sprint` prints an `int`. Every
  other domain gets `https`. The link is `scheme://domain path ?id=id`, with nothing
  escaped.
- **Client address** (`Tracker.ClientIP`). A non-empty `X-Forwarded-For` header is used
  verbatim. Otherwise the host half of the remote address is used, or the whole remote
  address when it does not split. The network library's host/port splitter is a
  function parameter.
- **Event and response** (`Tracker.BuildEvent`, `Tracker.Handle`, `Tracker.HandleAll`).
  The event is copied field by field from an abstract request: the query's `id`, four
  headers, the remote address and a clock reading. The callback, when one is registered,
  is invoked exactly once; the model records the invocation as an entry appended to a
  trace. The response is always status 200, `image/gif`, with the pixel bytes as body.
- **The pixel** (`Pixel.PixelData`). These are the 43 bytes exactly as declared. The
  model proves they are the GIF89a encoding of a structured image (`Pixel.PixelImage`).
  That image has a 1×1 logical screen, a black/white global color table, a Graphic
  Control Extension making index 0 transparent, and one 1×1 image whose LZW codes are
  clear, index 0, end.

Modules: `Wrappers` (Option), `Decimal` (integer printing and a reference reader), `Bytes`
(byte, 16-bit little-endian fields, bits), `Gif` (the single-image GIF89a layout, with an
encoder, a decoder and their round trip), `Pixel`, `Tracker`, and `Scenarios` (worked
concrete cases).

The declared bytes spell `GIF89a` (`0x38 0x39 0x61`) and carry a Graphic Control
Extension, which only GIF89a defines, so the image format is modelled as GIF89a. The
constant `pixelData` (tracker.go:89-96) is `Pixel.PixelData`, and the reply written at
tracker.go:52-54 is `Tracker.PixelResponse`.

## Model

| member | source | states |
|---|---|---|
| `Decimal.IntToDecimal` | tracker.go:68-70 | The port's decimal form is canonical. It has no leading zero, and it starts with '-' exactly when the port is negative. |
| `Decimal.DecimalRoundTrip` | tracker.go:68-70 | Reading the printed port back as a decimal numeral gives the port. |
| `Decimal.DecimalCharacterization` | tracker.go:67-70 | A string equals the printed form of `n` if and only if it is a canonical decimal numeral whose value is `n`. |
| `Decimal.DecimalInjective` | tracker.go:67-70 | Two ports print the same if and only if they are equal. |
| `Tracker.UsesPlainHttp` | tracker.go:67-70 | The Go condition selecting plain http. It only holds for a domain that begins with `localhost` or `127.0.0.1`, and such a domain that is not one of the two bare names contains a ':'. `Tracker.PlainHttpCharacterization` states exactly which domains it accepts. |
| `Tracker.Scheme` | tracker.go:65-72 | The protocol is always `http` or `https`, and it is `http` exactly when the allow-list condition holds. |
| `Tracker.GenerateLink` | tracker.go:64-74 | The link starts with `http://` iff the domain is on the four-entry allow-list, and with `https://` otherwise. After the scheme and `://` come the domain, the path, `?id=` and the id, all verbatim. |
| `Tracker.SchemePrefix` | tracker.go:65-73 | Exactly one of `http://` and `https://` begins the link, and the allow-list decides which. |
| `Tracker.LinkEndsWithId` | tracker.go:73 | The link ends with `?id=` followed by the identifier, unescaped. |
| `Tracker.PlainHttpCharacterization` | tracker.go:65-72 | Plain http is chosen iff the domain is `localhost` or `127.0.0.1`, either bare or followed by ':' and a canonical numeral whose value is the configured port. |
| `Tracker.NamesHostTextually` | tracker.go:67-70 | Equality with `host + ":" + Sprint(port)` is the same as "host, colon, canonical numeral of value port". |
| `Tracker.OtherPortUsesHttps` | tracker.go:67-70 | A loopback name with any port other than the configured one gets `https`. |
| `Tracker.LeadingZeroPortUsesHttps` | tracker.go:67-70 | `localhost:0…` (a port written with a leading zero) never matches, for any configured port. |
| `Tracker.OtherLoopbackNamesUseHttps` | tracker.go:65-72 | `::1` and `0.0.0.0` get `https` for every port, path and id. |
| `Tracker.ClientIP` | tracker.go:76-86 | A non-empty forwarding header is returned verbatim. Otherwise the split host is returned, or the raw remote address when splitting fails. It never fails. |
| `Tracker.ClientIPSource` | tracker.go:76-86 | The address always comes from one of three places: the non-empty header, the split host, or the remote address. |
| `Tracker.ForwardedForSpoofable` | tracker.go:77-80 | Setting a non-empty `X-Forwarded-For` on any request makes that value the recorded address. |
| `Tracker.ForwardedForIgnoresRemote` | tracker.go:78-80 | With a non-empty forwarding header, changing the remote address does not change the result. |
| `Tracker.ClientIPIgnoresPort` | tracker.go:81-85 | Without the header, remote addresses that split to the same host give the same address, whatever their ports. |
| `Tracker.Get` | tracker.go:41-46 | A lookup returns the stored value when the key is present. A non-empty result is always the value stored under that key, so an absent key reads as `""`. |
| `Tracker.BuildEvent` | tracker.go:40-48 | `ID` is the query `id` (`""` if absent). `IP` is the client address. The four header fields are the raw header values (`""` if absent). `Time` is the clock reading. |
| `Tracker.Handle` | tracker.go:38-56 | The response is always 200, `image/gif`, and the 43 pixel bytes. With no callback the trace is unchanged. With one, exactly one invocation carrying the request's event is appended. |
| `Tracker.PixelResponse` | tracker.go:52-54 | The reply is status 200 with content type `image/gif`, and its body is the 43 declared bytes. |
| `Tracker.PixelResponseImage` | tracker.go:88-96 | The body the handler writes is the GIF89a encoding of the well-formed one-pixel image, and decoding it gives that image back. |
| `Tracker.ResponseIndependent` | tracker.go:52-54 | Any two requests, trackers and clock readings get the same response. |
| `Tracker.HandleAll` | tracker.go:38-56 | For a run of requests, every response is the pixel response. With a callback, the trace grows by one invocation per request, in order, each carrying that request's own event. Without one, the trace is unchanged. |
| `Pixel.PixelSections` | tracker.go:89-96 | The 43 declared bytes are the header, screen descriptor, color table, graphic control, image descriptor, image data and trailer, in order. |
| `Pixel.PixelEncoding` | tracker.go:88-96 | The declared bytes are exactly the GIF89a encoding of the structured 1×1 image, which is well formed. |
| `Pixel.PixelDecoding` | tracker.go:88-96 | Reading the declared bytes as GIF89a yields that structured image. |
| `Pixel.PixelLayout` | tracker.go:89-96 | The constant is 43 bytes long. It starts with "GIF89a" (GIF89a section 17), and bytes 6-9 give a 1×1 logical screen (section 18). A Graphic Control Extension starts at byte 19 (section 23), and the last byte is the trailer 0x3B (section 27). |
| `Pixel.PixelTransparent` | tracker.go:88-96 | Index 0 is marked transparent, and the image is 1×1. Its first three 3-bit LZW codes are clear, 0 (the transparent index) and end of information. |
| `Gif.DecodeEncode` | tracker.go:89-96 | Every well-formed single-image GIF89a value of the shape the constant uses is read back exactly from its encoding. |
| `Scenarios.LocalhostLink` | tracker.go:64-74 | Port 8080, domain `localhost:8080`, path `/pixel` and id `abc123` give `http://localhost:8080/pixel?id=abc123`. |
| `Scenarios.PublicDomainLink` | tracker.go:64-74 | Domain `tracker.example.com`, path `/pixel` and id `x` give `https://tracker.example.com/pixel?id=x`. |
| `Scenarios.MismatchedPortLink` | tracker.go:67-70 | Domain `localhost:9090` with configured port 8080 gets `https`. |
| `Scenarios.ForwardedRequest` | tracker.go:40-54 | A request with `X-Forwarded-For: 203.0.113.5` and no id gets one invocation whose event has that IP and an empty ID. The response is still the pixel. |
| `Scenarios.DirectRequest` | tracker.go:81-85 | Remote address `192.0.2.10:54321` with no forwarding header records `192.0.2.10`. |
| `Scenarios.TwoRequests` | tracker.go:38-56 | Two requests with ids `a` and `b` both get the pixel, and each triggers one invocation carrying its own id. |
| `Scenarios.NoCallbackNoTrace` | tracker.go:49-51 | With a nil callback, no request produces an invocation. |

## Left out

- `Start` (tracker.go:58-62) registers the handler on the process-wide mux and blocks in `ListenAndServe`. That is network I/O, and its only result is the listener's error, passed through.
- `NewTracker` (tracker.go:31-36) is the `Tracker` datatype constructor itself, so it has no separate member.
- `time.Now()` is not modelled. The clock reading is the `now` parameter.
- `net.SplitHostPort` is the `split` parameter. Its bracket and IPv6 rules are not modelled.
- `url.Query().Get` and `http.Header.Get` are not modelled. They are finite maps holding the first value per key, with header names already in canonical form; multi-value headers and key canonicalisation are outside the model.
- The callback's behaviour is not modelled: blocking, panics, side effects. Only the fact that it is invoked, and with which event, is recorded.
- Concurrency is not modelled. `Tracker.HandleAll` is one sequential interleaving, and the order in which concurrent requests reach the callback is not.
- Headers that Go's HTTP server adds on its own (`Content-Length`, `Date`) are not modelled, and neither is the ignored error from writing the body.
- `Tracker.Int64`: the port is bounded to Go's 64-bit `int`. Decimal printing is the same for every integer, so the bound only restricts which configurations can exist.
- `Gif.Decode` reads only the one-image layout the constant uses. That layout has exactly one Graphic Control Extension, no other extensions, and nothing after the trailer. Other GIF files are outside the model.
- Strings are modelled as Dafny strings, which are sequences of Unicode characters, not as Go's byte strings. A domain, path, id, header value or remote address holding invalid UTF-8 cannot be represented. Lengths such as the `|id| + 4` in `Tracker.LinkEndsWithId` count characters, not bytes. Concatenation and equality agree with Go's for valid UTF-8, so the model is exact for every string it can represent.
- `Pixel.PixelTransparent`: the LZW stream is read as fixed 3-bit codes. This is exact for these three codes, because the code table never grows past 8 entries. General LZW decompression is not modelled.
