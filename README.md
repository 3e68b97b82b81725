# rock: GB28181 SIP signalling core, modelled in Dafny

rock is a GB28181 video-surveillance signalling server written in Go. It
speaks SIP (RFC 3261). Devices (IP cameras) REGISTER with the server; the
server answers 200 OK and pulls a live stream from each device by sending it
an INVITE whose body is an SDP offer. This project models the parts of that
server that decide what goes on the wire and how a device's session evolves:

- **URI parser** (`SipUri`): the state machine of `sip/parse_uri.go`
  (section 19.1.1 of RFC 3261). Every state function that loops is a method
  proved equal to a specification function; the others are those
  functions. The dispatch loop is proved equal to
  the run of those specifications. Lemmas state what each stage writes,
  and that a complete `sip:user:password@host:port;k=v?hk=hv` text parses
  back to its fields.
- **Address parsers** (`SipAddress`): the one-pass character scan of
  `ParseAddressValue`, the To and From parsers, and the comma splitters of
  Contact, Route and Record-Route (section 20.10 of RFC 3261). The scan is a
  method whose loop invariant ties it to a step function; lemmas say what
  the loop variables mean (display name, URI bounds, header parameters).
- **Header values** (`CSeq`, `Content`): CSeq with its 2^31 - 1 limit,
  Content-Length and Content-Type, with round-trip lemmas.
- **Requests** (`Message`, `Builders`): the wire text of a request, how its
  transport, source and destination are resolved, and the INVITE, catalog,
  ACK (section 13.2.2.4 of RFC 3261), CANCEL (section 9.1 of RFC 3261) and
  clone builders. Each builder is a method that appends headers step by
  step and is proved equal to a function on values; lemmas state the header
  layout, the dialog fields copied, and the error cases.
- **State machines** (`Fsm`, `SipTimer`): the session and INVITE state
  transitions of `sip/spin_fsm.go`, as step functions and as small classes
  whose methods overwrite their `state`; the bookkeeping of `sip/timer.go`,
  with Go's 64-bit `time.Duration` overflow written out.
- **SDP body** (`Sdp`): the fixed twelve-line template of `body/sdp.go`,
  with the iota constants as Go evaluates them.
- **Sessions, channels and the registry** (`Session`, `Channel`, `Server`):
  a device session is a class whose methods change its fields and append to
  its connection's log of written messages. Each method is proved against a
  pure function of the session's view (`Session.SessionView`), and the
  lemmas about the session are proved on those functions. The registry is a
  class holding a map from device id to session.

The model follows the code as written. Two places in the code do things
the design does not intend, and the model keeps them:

- `sip_server/session.go` declares its own copies of the state enums and
  never calls the `sip/spin_fsm.go` transitions. A session's `sipState`
  and `invitePlayState` therefore never move; `Session.ServeKeepsStates`
  proves this.
- `sip_server/server.go` never stores a session it creates. See
  "## Findings".

## Model

| member | source | states |
|---|---|---|
| SipUri.ParseUri | sip/parse_uri.go:13-23 | the dispatch loop returns exactly the run of the state specifications from the scheme state: states are applied until one names no next state or returns an error, and that error ends the run |
| SipUri.StepSpec | sip/parse_uri.go:8-23 | every state hands on only to a later state, so the machine always stops |
| SipUri.Apply | sip/parse_uri.go:16-17 | one dispatch step is the step specification of the current state |
| SipUri.StateUser | sip/parse_uri.go:40-59 | with an '@', the text before it is the user info, split at the last ':' seen at index > 0 into user and password, and the rest after '@' goes to Host; without '@' the whole text goes to Host |
| SipUri.UserScanNext | sip/parse_uri.go:42-46 | one iteration of the user loop keeps the loop invariant: no '@' seen yet, and `userend` is the last ':' seen |
| SipUri.UserScanFound | sip/parse_uri.go:47-55 | reaching the first '@' gives the user/password split and the rest the state specification names |
| SipUri.UserScanDone | sip/parse_uri.go:58 | a loop that ends without '@' hands the text to Host unchanged |
| SipUri.StateHost | sip/parse_uri.go:72-92 | the host runs to the first ':', ';' or '?', which selects Port, UriParams or Headers; with none, the rest is the host and UriParams comes next on empty text |
| SipUri.StatePort | sip/parse_uri.go:94-110 | the port is `Atoi` of the text up to the first ';' or '?' (which selects the next state) or of the whole rest, which ends the parse; Atoi's error is returned |
| SipUri.LaterStatesKeepFlags | sip/parse_uri.go:40-144 | no state after the scheme writes the Encrypted or Wildcard flags |
| SipUri.ParseKeepsWildcard | sip/parse_uri.go:13-144 | ParseUri never sets the Wildcard flag: it stays as the caller passed it |
| SipUri.ParseErrors | sip/parse_uri.go:13-144 | the only errors ParseUri returns are index panics and `strconv.Atoi` syntax or range errors |
| SipUri.LaterStatesKeepUser | sip/parse_uri.go:72-144 | no state after the user part writes the user or the password |
| SipUri.EncryptedIffSipsScheme | sip/parse_uri.go:25-32 | for text of length at least 5, the URI is marked encrypted exactly when its first and fourth characters are 's' or 'S' |
| SipUri.NoSchemeStartsAtHost | sip/parse_uri.go:33-34 | text that does not start with 's'/'S' is parsed from the Host state and is not marked encrypted |
| SipUri.NoAtNoUser | sip/parse_uri.go:42-58 | without an '@' the text reaches Host unchanged and the user and password stay as they were |
| SipUri.HostOnly | sip/parse_uri.go:89-118 | a host with no ':', ';' or '?' is the whole rest, and parameters and headers become empty |
| SipUri.PortLast | sip/parse_uri.go:108-109 | a port that is the last component ends the parse with the port Atoi returned and its error, leaving parameters and headers unset; decimal text that fits int64 gives its value |
| SipUri.HeadersOnlyAfterQuestionMark | sip/parse_uri.go:127-135 | parameter text without '?' never reaches the Headers state: the headers are left as they were |
| SipUri.UserStage | sip/parse_uri.go:40-55 | `user:password@rest` writes that user and password and hands `rest` to Host |
| SipUri.HostStage | sip/parse_uri.go:73-77 | `host:rest` writes the host and hands `rest` to Port |
| SipUri.PortStage | sip/parse_uri.go:96-100 | a printed port followed by ';' is read back and hands the rest to UriParams |
| SipUri.UriParamsStage | sip/parse_uri.go:120-135 | one `k=v` followed by '?' is one parameter, and the rest goes to Headers |
| SipUri.HeadersStage | sip/parse_uri.go:138-144 | one `hk=hv` is one header, and the parse ends |
| SipUri.SchemeStage | sip/parse_uri.go:26-32 | the printed scheme `sip:` or `sips:` sets the flag accordingly and is skipped |
| SipUri.ParseFullUri | sip/parse_uri.go:13-144 | round trip: a URI with user, password, host, port, one parameter and one header, printed as `sip[s]:user:password@host:port;k=v?hk=hv`, parses back to exactly those fields with no error |
| SipAddress.Step | sip/parse_address.go:19-75 | one scan iteration keeps every index variable within the characters seen so far |
| SipAddress.ScanTo | sip/parse_address.go:19-76 | the scan after n characters keeps its index variables below n |
| SipAddress.ScanStops | sip/parse_address.go:67-74 | once the scan has returned early (at '*') or panicked, later characters change nothing |
| SipAddress.ScanChar | sip/parse_address.go:20-75 | the switch on one character is the scan step |
| SipAddress.ParseAddressValue | sip/parse_address.go:13-100 | the loop and the code after it compute exactly the address value specification: the scan, then ParseUri of the URI text, then the trailing header parameter, added only when ParseUri returned no error; writing a parameter into a nil map is the nil-map panic (TwoHeaderParams and OneHeaderParam give the parameters of whole values) |
| SipAddress.UriStartAfterFirstBracket | sip/parse_address.go:26-39 | the URI starts right after the first '<'; later '<' characters are ignored |
| SipAddress.UriEndAtLastCloser | sip/parse_address.go:40-44 | when a '>' has been seen, the URI ends at the last '>' |
| SipAddress.BareUriEndsAtSemicolon | sip/parse_address.go:45-80 | without brackets the URI starts at 0 and ends at the first ';' (or the end of the text) |
| SipAddress.DisplayNameAtFirstBracket | sip/parse_address.go:21-37 | at the first '<', the display name is the text between the first and the last '"' when a quote was seen at index > 0, and the trimmed text before '<' otherwise |
| SipAddress.DisplayNameKept | sip/parse_address.go:26-30 | once the URI has started, the display name and the URI start never change |
| SipAddress.ParamAddedAtSemicolon | sip/parse_address.go:45-62 | a ';' outside brackets first ends a bare URI; after that, a pending `name=value` is added to the header parameters |
| SipAddress.SemicolonInBrackets | sip/parse_address.go:46-50 | a ';' inside brackets only records its position |
| SipAddress.ParamNamedAtEqual | sip/parse_address.go:64-66 | '=' names a parameter: the text after the last ';' up to the '=' |
| SipAddress.InertStretch | sip/parse_address.go:19-75 | once the URI has started, characters other than ';', '=', '>' and '"' change no loop variable |
| SipAddress.ScanInUri | sip/parse_address.go:26-44 | from a leading '<' up to the first '>', the scan is inside brackets with the URI started at 1 and not closed, the display name empty and the map untouched |
| SipAddress.ParamSegment | sip/parse_address.go:45-66 | after a closed URI, `;name=value` first handles the ';' and then records `name` and the position of its '=' |
| SipAddress.NextParam | sip/parse_address.go:45-66 | after the '>', a `;k=v` names k; a pending parameter before it is written into the map at that ';', which panics when the map is nil |
| SipAddress.TwoHeaderParams | sip/parse_address.go:13-100 | `<u>;k1=v1;k2=v2` has an empty display name and the URI and error ParseUri gives for u; the map gains k1=v1, and k2=v2 after it only when ParseUri succeeded; with a nil map the value panics |
| SipAddress.OneHeaderParam | sip/parse_address.go:13-90 | `<u>;k=v` adds k=v only when ParseUri of u succeeded; with a nil map it returns ParseUri's error, or else the nil-map panic |
| SipAddress.StepShadow | sip/parse_address.go:20-75 | one step with a nil map matches the step with an empty map, unless that step writes a parameter, in which case it panics |
| SipAddress.NilScanShadows | sip/parse_address.go:19-75 | the scan with a nil map is the scan with an empty map while no parameter has been written, and has panicked once one would be |
| SipAddress.NilParamsFailAtFirstParam | sip/parse_address.go:13-100 | a value parses with a nil map as with an empty map when it adds no header parameter, and otherwise fails with the nil-map panic |
| SipAddress.WildcardStopsScan | sip/parse_address.go:67-74 | a '*' before any quote at index > 0 and before any '<' returns with no error, and the caller's Uri is left empty |
| SipAddress.WildcardNeverSet | sip/parse_address.go:67-81 | ParseAddressValue never sets the caller's Wildcard flag |
| SipAddress.ParseTo | sip/parse_address.go:102-120 | parseToAddressHeader: the header is returned together with ParseAddressValue's error; a wildcard URI is rejected |
| SipAddress.ParseFrom | sip/parse_address.go:122-147 | parseFromAddressHeader: no header on error; a wildcard URI is rejected |
| SipAddress.ToIsAddressValue | sip/parse_address.go:102-120 | a To value always yields the parsed header, with ParseAddressValue's own error |
| SipAddress.FromIsAddressValue | sip/parse_address.go:122-147 | a From value yields a header exactly when it parses without error |
| SipAddress.ToAndFromAcceptStar | sip/parse_address.go:67-145 | as written, To and From accept "*" with no error and an empty address |
| SipAddress.AddressValueFixed | sip/parse_address.go:67-74 | corrected: a scan that stops at '*' gives a wildcard URI and no error; every other text is parsed as before |
| SipAddress.FixedRejectsWildcard | sip/parse_address.go:102-147 | with the correction, To and From reject exactly the values whose scan stops at '*', and agree with the code on all others |
| SipAddress.FixedRejectsStar | sip/parse_address.go:102-147 | with the correction, To and From reject "*" |
| SipAddress.SplitTo | sip/parse_address.go:162-183 | the splitter's section start never passes the current index |
| SipAddress.SplitCovers | sip/parse_address.go:162-183 | the sections cut so far, with commas between them, are exactly the text up to the section start |
| SipAddress.SectionsRejoin | sip/parse_address.go:156-183 | when the text does not end inside quotes or brackets, joining the sections, each with a ',', gives back the text plus the appended ',' |
| SipAddress.ParseSections | sip/parse_address.go:149-186 | the comma-splitting loop either returns the first section's error, or parses every section |
| SipAddress.SectionEnds | sip/parse_address.go:169-181 | a ',' outside quotes and brackets cuts a section, and that section's error is now the first one if no earlier section failed |
| SipAddress.ParseContact | sip/parse_address.go:149-186 | parseContactAddressHeader is the Contact value specification |
| SipAddress.ParseRoute | sip/parse_address.go:188-221 | parseRouteHeader is the Route value specification: every section is parsed with a nil header-parameter map |
| SipAddress.ParseRecordRoute | sip/parse_address.go:223-256 | parseRecordRouteHeader is the same specification as Route, with the same nil map |
| SipAddress.SectionsOfTwo | sip/parse_address.go:162-183 | two simple addresses joined by ',' split into exactly those two sections |
| SipAddress.ContactKeepsOnlyFirst | sip/parse_address.go:171-185 | as written, a Contact value of two good addresses yields only the first |
| SipAddress.RouteKeepsOnlyFirst | sip/parse_address.go:208-220 | as written, a Route value of two good addresses yields only the first |
| SipAddress.SectionsOfBracketed | sip/parse_address.go:197-218 | `<u>` followed by text without '<', '>', '"' or ',' is a single section |
| SipAddress.RouteParamPanics | sip/parse_address.go:188-221 | as written, a Route entry `<u>;k=v` gives no header and an error: ParseUri's error for u, or else the nil-map panic |
| SipAddress.RouteFixedKeepsAddress | sip/parse_address.go:188-221 | corrected: that entry gives the header with u's URI, or ParseUri's error |
| SipAddress.NilMapFailsAlike | sip/parse_address.go:205-215 | when no section adds a header parameter, the nil map and an empty one give the same first failure |
| SipAddress.RouteFixedAgrees | sip/parse_address.go:188-256 | the correction changes no Route or Record-Route value whose sections add no header parameter |
| SipAddress.ContactListValue | sip/parse_address.go:149-186 | corrected: a Contact list has one header per section, in order, each the section's parsed address; it fails exactly when one section does |
| SipAddress.ContactListKeepsAll | sip/parse_address.go:149-186 | with the correction, two good addresses yield both |
| SipAddress.ContactHeadIsFirstOfList | sip/parse_address.go:158-185 | the code's one Contact header is the first of the corrected list |
| CSeq.ParseCSeq | sip/parse_cseq.go:10-37 | on success the text is the decimal `SeqNo`, a whitespace, and the untrimmed rest as method; text with no whitespace fails; every error is a CSeq format error, a strconv error or the 2^31 - 1 limit |
| CSeq.ParseCSeqOfPrint | sip/parse_cseq.go:13-36 | a printed number, one whitespace and a method parse back; above 2^31 - 1 the limit error, above 2^32 - 1 a range error |
| CSeq.CSeqRoundTrip | sip/parse_cseq.go:22-36 | a CSeq header printed as `n method` parses back to itself |
| CSeq.CSeqNeedsBothParts | sip/parse_cseq.go:13-20 | text that starts with whitespace has no sequence number and fails |
| Content.ParseContentLength | sip/parse_content.go:8-15 | the trimmed text is accepted exactly when it is a decimal that fits 32 bits, and the length is then its value; otherwise a syntax or range error |
| Content.ContentLengthRoundTrip | sip/parse_content.go:8-15 | a printed length with whitespace around it parses back |
| Content.ParseContentType | sip/parse_content.go:17-22 | Content-Type is a slice of the text with no whitespace at either end, and never fails |
| Content.ContentTypeIdempotent | sip/parse_content.go:17-22 | parsing the parsed Content-Type changes nothing |
| Content.ContentTypePadded | sip/parse_content.go:17-22 | Content-Type drops exactly the whitespace around the value |
| Text.TrimSpace | sip/parse_content.go:12 | `strings.TrimSpace`: a slice of the input with no whitespace at either end |
| Text.TrimSpaceIdempotent | sip/parse_content.go:19 | trimming twice is trimming once |
| Text.TrimSpacePadded | sip/parse_content.go:12 | trimming removes exactly the whitespace put around a value |
| Text.ToUpper | sip/request.go:262 | `strings.ToUpper`: same length, each character upper-cased |
| Text.ToLower | sip/request.go:359 | `strings.ToLower`: same length, each character lower-cased |
| Text.IndexOf | sip/parse_cseq.go:13 | the first index of a character, -1 exactly when it is absent |
| Text.IndexOfAny | sip/parse_cseq.go:13 | `strings.IndexAny`: the first index of any of the characters, -1 exactly when none occurs |
| Text.LastIndexOf | sip/parse_address.go:25 | the last index of a character, -1 exactly when it is absent |
| Numbers.ParseUintMax | sip/parse_cseq.go:23 | `strconv.ParseUint`: no error exactly for a non-empty decimal within the bit size, whose value is returned; on syntax error 0, on range error the maximum |
| Numbers.ParseUint32 | sip/parse_content.go:12 | ParseUint with bit size 32 |
| Numbers.Atoi | sip/parse_uri.go:98 | `strconv.Atoi`: the value stays within int64; a syntax error gives 0 |
| Numbers.AtoiOfIntToString | sip/parse_uri.go:98 | Atoi reads back every printed int64 |
| Numbers.ParseUint32OfNatToString | sip/parse_content.go:12 | ParseUint reads back every printed 32-bit number |
| Numbers.DigitsValueOfNatToString | sip/parse_cseq.go:23 | the decimal value of a printed number is the number |
| Numbers.WrapInt64 | sip/timer.go:14 | Go's int64 arithmetic: the result is within int64, equals the exact value when that fits, and differs from it by a multiple of 2^64 |
| HeaderParams.Get | sip/request.go:142 | a value is found exactly when the key is present, and it is that key's value |
| HeaderParams.Add | sip/parse_address.go:59 | adding a new key appends it; adding a present key keeps the length |
| HeaderParams.AddThenGet | sip/parse_address.go:57-90 | after Add, Get of the key gives the new value and every other key reads as before |
| HeaderParams.AddKeepsUnique | sip/parse_address.go:57-90 | Add keeps the keys unique |
| HeaderParams.Unmarshal | sip/parse_uri.go:122 | the decoder consumes text without the end character and stops at that character or at the end |
| HeaderParams.UnmarshalSingle | sip/parse_uri.go:120-142 | one `k=v` up to the end character decodes to one parameter |
| Message.GetHeader | sip_server/session.go:164 | the header found has the name asked for, ignoring case; none is found only when no header has that name |
| Message.RequestText | sip/request.go:75-100 | `Request.String()` starts with the start line and CRLF, then the headers, and ends with CRLF |
| Message.RequestTextTail | sip/request.go:94-99 | after the headers come CRLF, the body and CRLF when there is a body, and CRLF alone otherwise |
| Message.StartLineFields | sip/request.go:75-81 | the method is the text before the first space of the start line and the version the text after the last one |
| Message.Transport | sip/request.go:122-162 | a non-empty override wins; the result is never empty; with an encrypted next-hop URI it is never TCP or WS |
| Message.Source | sip/request.go:164-198 | the override wins; the result is empty exactly when there is neither an override nor a Via; otherwise it names the Via's address |
| Message.SourceNamesVia | sip/request.go:169-197 | without an override, the source is `host:port` of the Via, after `received` and `rport` |
| Message.Destination | sip/request.go:200-226 | the override wins, and the result is never empty |
| Message.DestinationNamesNextHop | sip/request.go:205-225 | without an override, the destination is the top Route URI's host (or else the recipient's) with its port, or the transport's default port when that is not positive |
| Message.SplitHostPortOfHostPort | sip/request.go:197 | `host:port` as printed splits back into host and port |
| Message.SetBody | sip/request.go:296 | SetBody stores the body, keeps every other header, and touches only Content-Length |
| Message.SetBodyLength | sip/request.go:296 | after SetBody, the first Content-Length is the body's length |
| Message.SetBodyKeeps | sip/request.go:296 | SetBody leaves every kind of header other than Content-Length as it was |
| Message.NewResponseFromRequest | sip_server/session.go:176 | the 200 OK carries the given code and reason and the request's version, and is addressed to the request's source |
| Builders.NewInviteRequest | sip/request.go:247-298 | the appending builder returns exactly the INVITE specification |
| Builders.NewCatalogRequest | sip/request.go:300-351 | the catalog builder returns the very same request as NewInviteRequest, method INVITE included |
| Builders.InviteIs | sip/request.go:247-298 | the INVITE is method INVITE to the recipient, SIP/2.0, the seven headers then Content-Length of the body, the body, and no overrides |
| Builders.InviteShape | sip/request.go:252-296 | the INVITE's headers are Via, From, To, Content-Type, Contact, Call-ID, CSeq and Content-Length, in that order |
| Builders.InviteSequencing | sip/request.go:250-295 | the CSeq is 1 INVITE, the Call-ID is `gotest-` plus the clock, and the top Via carries the transport, the sender's host and port, and the branch |
| Builders.InviteParties | sip/request.go:261-291 | From and Contact name the sender and To the recipient, each display name upper-cased, the Contact with `expires=3600` |
| Builders.InviteResolves | sip/request.go:122-298 | with no overrides, the INVITE's transport is the given one (or the default), its source the sender and its destination the recipient |
| Builders.InviteLacksMaxForwards | sip/request.go:243-298 | as written, the INVITE carries no Max-Forwards, so it lacks a header section 8.1.1 of RFC 3261 makes mandatory |
| Builders.FixedInviteHasMandatoryHeaders | sip/request.go:243-298 | corrected: the INVITE with Max-Forwards 70 carries To, From, CSeq, Call-ID, Max-Forwards and Via |
| Builders.ContactExpiresIsItoa | sip/request.go:282 | `strconv.Itoa(3600)` is "3600" |
| Builders.AckVias | sip/request.go:368-373 | the ACK's Via list holds Via headers only |
| Builders.AckRoutes | sip/request.go:375-383 | the ACK's route set holds Route or Record-Route headers only |
| Builders.AckViaPhase | sip/request.go:355-373 | the recipient and Via part of NewAckRequest: a 2xx to an INVITE without Via dereferences nil; otherwise a fresh ACK with the invite's Vias, the top one with a new branch after a 2xx |
| Builders.AppendAckRoutes | sip/request.go:375-383 | the invite's Route headers, or else the response's Record-Route headers in reverse order, are appended |
| Builders.AckCSeqPhase | sip/request.go:399-404 | the invite's CSeq is appended and renamed to ACK; without one, the rename dereferences nil |
| Builders.NewAckRequest | sip/request.go:355-412 | the appending builder returns exactly the ACK specification |
| Builders.AckErrors | sip/request.go:369-404 | the ACK fails exactly when the code dereferences nil: a 2xx to an INVITE without Via, or an INVITE without CSeq |
| Builders.AckShape | sip/request.go:355-411 | a built ACK is method ACK to the chosen recipient, the invite's version, the given body, and the Vias, route set, Max-Forwards, From, To, Call-ID, then CSeq and Content-Length |
| Builders.AckParties | sip/request.go:387-397 | the ACK's From and Call-ID are the invite's and its To is the response's |
| Builders.AckSequencing | sip/request.go:385-404 | the ACK carries Max-Forwards 70 and the invite's CSeq number with method ACK |
| Builders.AckRouteSetReversed | sip/request.go:377-382 | without Route headers in the invite, the ACK's route set is the response's Record-Route list reversed |
| Builders.AckResolvesLikeInvite | sip/request.go:407-409 | the ACK's transport, source and destination are those the invite resolves to |
| Builders.LayoutTopVia | sip/request.go:368-386 | in the ACK/CANCEL layout the top Via is the first copied Via, and no Via follows the Via block |
| Builders.CancelHead | sip/request.go:414-425 | the CANCEL starts with the request's recipient and version, its top Via, its Route copies and Max-Forwards 70 |
| Builders.NewCancelRequest | sip/request.go:414-448 | the appending builder returns exactly the CANCEL specification |
| Builders.CancelMatchesRequest | sip/request.go:414-448 | the CANCEL fails exactly when the request has no Via or no CSeq; otherwise it has the request's recipient, version, From, To, Call-ID and top Via, CSeq method CANCEL, Max-Forwards 70, one Via and no body |
| Builders.CancelResolvesLikeRequest | sip/request.go:443-445 | the CANCEL's transport, source and destination are those the request resolves to |
| Builders.CopyRequest | sip/request.go:450-474 | the copy is the clone specification |
| Builders.SetBodyIdempotent | sip/request.go:464 | setting the same body twice is setting it once |
| Builders.SetBodyConsistent | sip/request.go:464 | a request whose Content-Length already matches its body is unchanged by SetBody of that body |
| Builders.CloneKeeps | sip/request.go:450-470 | the clone keeps the method, recipient, version, body and every header but Content-Length, whose first value is the body's length; a consistent request clones to the same headers |
| Builders.CloneResolvesAlike | sip/request.go:465-467 | the clone resolves to the same transport, source and destination |
| Builders.CloneIdempotent | sip/request.go:450-470 | cloning a clone gives the clone |
| Fsm.SessionStepCases | sip/spin_fsm.go:22-46 | OnTimeout and OnUnregister give Destroy; OnRegister changes the state exactly from Init, to Register; OnKeepalive exactly from Register, to Alive |
| Fsm.SessionStepForward | sip/spin_fsm.go:22-46 | no session event lowers the state's ordinal |
| Fsm.SessionRunForward | sip/spin_fsm.go:22-46 | no sequence of session events lowers it |
| Fsm.DestroyAbsorbing | sip/spin_fsm.go:22-46 | no sequence of events leads out of Destroy |
| Fsm.AliveNeedsRegisterThenKeepalive | sip/spin_fsm.go:26-46 | an Init session that reaches Alive saw a Register and later a Keepalive |
| Fsm.InviteStepCases | sip/spin_fsm.go:48-80 | OnInvite gives Start from every state; Trying changes only Start; OK changes only Start or Trying, to Ok; Done changes only Ok, to Done |
| Fsm.InviteRunForward | sip/spin_fsm.go:51-80 | between two OnInvite events the INVITE state only goes forward |
| Fsm.InviteNeedsOnInvite | sip/spin_fsm.go:48-80 | an INVITE state that left Init has seen OnInvite |
| Fsm.SessionMachine.constructor | sip/spin_fsm.go:5-10 | a new state is Init, the zero value |
| Fsm.SessionMachine.OnTimeout | sip/spin_fsm.go:22-24 | the new state is the OnTimeout step |
| Fsm.SessionMachine.OnRegister | sip/spin_fsm.go:26-33 | the new state is the OnRegister step |
| Fsm.SessionMachine.OnUnregister | sip/spin_fsm.go:35-37 | the new state is the OnUnregister step |
| Fsm.SessionMachine.OnKeepalive | sip/spin_fsm.go:39-46 | the new state is the OnKeepalive step |
| Fsm.InviteMachine.constructor | sip/spin_fsm.go:14-20 | a new state is Init, the zero value |
| Fsm.InviteMachine.OnInvite | sip/spin_fsm.go:48-50 | the new state is the OnInvite step |
| Fsm.InviteMachine.OnInviteTrying | sip/spin_fsm.go:51-59 | the new state is the OnInviteTrying step |
| Fsm.InviteMachine.OnInviteOK | sip/spin_fsm.go:60-69 | the new state is the OnInviteOK step |
| Fsm.InviteMachine.OnInviteDone | sip/spin_fsm.go:71-80 | the new state is the OnInviteDone step |
| SipTimer.SecondsExact | sip/timer.go:14-24 | `time.Duration(n) * time.Second` is n * 10^9 when that fits int64 |
| SipTimer.SecondsWraps | sip/timer.go:14-24 | 9223372037 seconds wraps around to a negative duration |
| SipTimer.Timer.constructor | sip/timer.go:12-21 | NewTimer arms the timer with the given duration in nanoseconds, stores Duration and MaxTimeoutCnt, and starts TimeoutCnt at 0 |
| SipTimer.Timer.Reset | sip/timer.go:23-27 | Reset re-arms the timer, sets TimeoutCnt to 0 and Duration to the new value, and keeps MaxTimeoutCnt |
| Sdp.FLineIsFixed | body/sdp.go:8-213 | with the iota values and the default frame and bit rates, the f= line is `f=v/3/6/25/1/20a/1/8/1` |
| Sdp.LinesTyped | body/sdp.go:194-213 | the builder writes twelve lines, each a type letter and '=' |
| Sdp.LinesShape | body/sdp.go:194-213 | the lines are v, o, s, c, t, m, a, a, a, a, y, f in that order |
| Sdp.FixedLines | body/sdp.go:203-213 | the t= line is always `t=0 0` and the f= line the fixed one |
| Sdp.RtpmapLinesNoCR | body/sdp.go:206-208 | the three rtpmap lines hold no CR |
| Sdp.FixedLinesNoCR | body/sdp.go:203-213 | the lines without a text field hold no CR |
| Sdp.LinesHaveNoCR | body/sdp.go:194-213 | when the text fields hold no CR, no line does |
| Sdp.SplitTerminated | body/sdp.go:194-213 | CRLF-terminated lines without a CR of their own split back into those lines |
| Sdp.BuilderSplits | body/sdp.go:191-215 | when the text fields hold no CR, the body splits back into its twelve lines: v= carries the version, s= the session, the first a= the direction and y= the SSRC |
| Session.Connection.WriteMsg | sip_server/session.go:177 | one message is appended to the connection's log |
| Session.SessionInvite | sip_server/session.go:201-232 | the INVITE fails exactly when the session has no register request (a nil dereference); it goes to the session's source over the session's transport |
| Session.InviteAddressesDevice | sip_server/session.go:201-230 | the INVITE goes from the server's URI (id, IP, port) to the device's URI (client id, peer IP, peer port), carries the Play offer as body, and resolves to the session's source and transport |
| Session.SendInviteAppends | sip_server/session.go:201-232 | a registered session writes exactly one message, that INVITE, and nothing else changes |
| Session.PlayOfferLines | sip_server/session.go:215-223 | the offer's lines are `o=<id> 0 0 IN IP4 <ip>`, `s=Play`, `c=IN IP4 <ip>`, `a=recv_only` and `y=<ssrc>` |
| Session.PlayOfferSplits | sip_server/session.go:215-225 | with no CR in the server id, IP and SSRC, the offer body splits back into its lines |
| Session.IgnoredRequests | sip_server/session.go:163-200 | a request that is not REGISTER, or a REGISTER without expires, leaves the session unchanged and writes nothing |
| Session.RegisterEffects | sip_server/session.go:163-188 | a REGISTER with expires re-arms the register timer to expires seconds, writes one 200 OK (then one INVITE when pulling immediately), stores the request and its source, takes the peer address from the Via when there is one, and changes nothing else |
| Session.RegisteredShape | sip_server/session.go:169-187 | the same, for the REGISTER branch after the expires lookup |
| Session.AnsweredFields | sip_server/session.go:169-180 | after the timer reset, the 200 OK and the refresh, exactly the timer, the register request, the source and the peer address changed |
| Session.RegisterPullsStream | sip_server/session.go:184-231 | when pulling immediately, the last message written after a REGISTER is an INVITE to the registering request's source over the session's transport |
| Session.BadExpiresArmsZero | sip_server/session.go:169-174 | a non-numeric expires arms the register timer with 0 |
| Session.ProcessKeepsTimer | sip_server/session.go:161-200 | with the register timer armed, processing a request never panics and the timer stays armed |
| Session.ProcessKeeps | sip_server/session.go:161-200 | processing a request keeps the client id, transport and both states, and only appends to what was written |
| Session.RegisteredKeeps | sip_server/session.go:169-187 | the REGISTER branch never fails and keeps the same fields |
| Session.KeepsTransitive | sip_server/session.go:92-118 | those kept fields stay kept over any number of steps |
| Session.LoopNeverPanics | sip_server/session.go:100-117 | with the register timer armed, the event loop never panics |
| Session.ServeNeverPanics | sip_server/session.go:92-118 | Serve arms both timers first and so never panics |
| Session.LoopKeeps | sip_server/session.go:100-117 | the event loop keeps the client id, transport and both states, and only appends messages |
| Session.ServeKeepsStates | sip_server/session.go:16-118 | as written, Serve never moves the session or INVITE state, whatever the events |
| Session.LoopStopsAtStop | sip_server/session.go:100-117 | a timer firing or cancellation ends the loop: events after it are never handled |
| Session.ServeAnswersRegister | sip_server/session.go:92-188 | a REGISTER with expires as the first event is answered: one 200 OK after what was written, then the INVITE when pulling immediately, and the request is kept as the register request |
| Session.ServeArmsTimers | sip_server/session.go:96-97 | Serve arms the register timer with 60 seconds and the keepalive timer with 3 minutes |
| Session.SipSession.constructor | sip_server/session.go:59-80 | a new session has the client id, transport, connection and configuration, the zero value in every other field, and no timers |
| Session.SipSession.RefreshSessionInfo | sip_server/session.go:153-159 | the source becomes the request's source, and the peer address the Via's when there is one |
| Session.SipSession.SendInvite | sip_server/session.go:201-232 | the session's new view is the send-INVITE specification; an unregistered session returns the nil-dereference error |
| Session.SipSession.Register | sip_server/session.go:169-187 | the REGISTER branch after the expires lookup, as specified |
| Session.SipSession.ProcessRequest | sip_server/session.go:161-200 | the session's new view is the request specification; a REGISTER before Serve armed the timer returns the nil-timer error |
| Session.SipSession.ProcessResponse | sip_server/session.go:233-235 | a response changes nothing |
| Session.SipSession.Serve | sip_server/session.go:92-118 | the session's final view is the Serve specification of the event sequence |
| Channel.SipChannel.constructor | sip_server/channle.go:8-17 | a channel has its session and id, no play request or response, and every state Init |
| Channel.SipChannel.SendInvite | sip_server/channle.go:19-51 | the session's INVITE (same sender, recipient, offer and overrides) is written once and kept as the play request; no channel state moves and the session changes only by what was written; an unregistered session panics and nothing is written |
| Server.DefaultConf | sip_server/server.go:89-95 | the configuration's IP is the local address and pulling is immediate |
| Server.LookupRequest | sip_server/server.go:155-162 | no From means no key; otherwise the key is the From URI's user, found exactly when the registry holds it |
| Server.KnownAfter | sip_server/server.go:161-172 | the registry's keys only grow, and grow exactly when a session is stored for an unknown key |
| Server.Creations | sip_server/server.go:161-170 | a run of requests creates at most one session per request |
| Server.EveryRequestCreates | sip_server/server.go:161-172 | as written, every request of a device the registry does not know creates and starts a new session |
| Server.FirstRequestCreates | sip_server/server.go:161-172 | corrected: only a device's first request creates a session |
| Server.KnownDeviceNotCreated | sip_server/server.go:162-172 | a device the registry knows never gets a new session |
| Server.SipServer.constructor | sip_server/server.go:96-102 | a new server has no session |
| Server.SipServer.FetchSessionByDeviceId | sip_server/server.go:146-152 | the stored session, found exactly when the id is a key; otherwise an error naming the id |
| Server.SipServer.FetchSessionByResponse | sip_server/server.go:175-201 | no To is an error; otherwise the lookup of the To user, which never creates a session |
| Server.SipServer.FetchOrCreateSession | sip_server/server.go:154-173 | no From is an error; a known key gives its session; an unknown one a new session, or an error without a connection; the map is never written |
| Server.SipServer.FetchOrCreateSessionFixed | sip_server/server.go:154-173 | corrected: the new session is also stored under its key |
| Server.SipServer.NewSipSession | sip_server/session.go:59-80 | no connection gives an error; otherwise a fresh session in its initial state |
| Server.SipServer.HandleRequest | sip_server/server.go:127-134 | the error is always nil; the request is queued on the session found for it, or on the fresh session created for an unknown device (which is not stored); every stored session other than the one found is unchanged |
| Server.SipServer.HandleResponse | sip_server/server.go:136-144 | the lookup error is returned, or the response is queued on the To user's session; every other stored session is unchanged |
| Server.SipServer.OnDeviceDestroyed | sip_server/server.go:68-71 | only the given key leaves the map |
| Server.SipServer.OnRecvHttpInvite | sip_server/server.go:59-66 | without a session the lookup error comes back wrapped; otherwise the session's INVITE is sent, and its nil-dereference error is returned |
| Server.NewSessionAnswersRegister | sip_server/server.go:127-172 | the session created for an unknown device's REGISTER, started with that request queued, answers it: one 200 OK, then the INVITE when pulling immediately, and the request becomes its register request |

## Left out

- Sockets, the UDP listener and the connection pool (`transport/`) are left out. A connection is a log of the messages written to it, and whether the transport can give a session a connection is an input.
- The HTTP API (`api/`) and the process bootstrap (`main/`) are left out: they are outside the signalling core.
- `body/xml.go` and the MESSAGE body decode in `processRequest` are left out. A MESSAGE changes no session state, so it is handled like any other ignored request.
- The package `sdp/sdp.go` is a stale copy of `body/sdp.go`. The session code fills the fields that only `body/sdp.go` has, so the model uses `body/sdp.go`.
- `sip.RandInt()`, `GenerateBranch()` and `time.Now()` are parameters: `ssrc`, `branch` and `now`. The SSRC is taken as text, because the SDP field is a string.
- Goroutines, channels, `select`, `context` and timer firing are left out. `Serve` runs over a given sequence of events: timer fired, cancelled, request arrived, and response arrived. This event loop is not part of `fetchOrCreateSession`, which starts it in a goroutine in the source.
- Logging is left out.
- The dispatch in `handleMessage` is left out: it only chooses between `handleRequest` and `handleResponse`.
- `NewSipServer`'s user-agent setup and `GetLocalIp` are left out. The local address is a parameter of `Server.DefaultConf`.
- The `time.Timer` inside a session is modelled by the duration it was last armed with.
- A Go run-time panic (nil dereference, index out of range) is returned as the error `Panic`. It is not a precondition.
- HeaderParams.Unmarshal: `UnmarshalParams` is not part of this model, and this stand-in never fails. Its result, and the `params` of a `Message.ViaHop`, are always a map: the nil map that `Source` tests for (sip/request.go:186) is not represented, so that test always finds a map.
- `HeaderParams.Add` is not part of this model. HeaderParams is taken to be a Go map (sip/request.go:282 indexes it by name) and Add to store into it, so `ParseAddressValue` given nil, as Route and Record-Route do, panics with Go's nil-map message at the first header parameter.
- Builders.CancelRequest: a request without a Via is taken to panic, on the assumption that `ViaHeader.Clone` (sip/request.go:422) dereferences its nil receiver; Clone's body is not part of this model.
- Message.DefaultPort, Message.NewResponseFromRequest, Message.GetHeader and the header printing are stand-ins. Their source is not part of this model; the contracts state only what the core relies on.
- `CopyHeaders`, `IsSuccess`, and the `Via()`, `Contact()`, `From()`, `To()`, `CallID()` and `CSeq()` getters are not part of this model. They are modelled as the first header of a kind in an ordered header list.
- Message.Transport: the contract states only the override, non-emptiness and encrypted cases. The full resolution is the function's body.
- Strings are sequences of characters, not bytes. Go's byte offsets match character indices for ASCII text only.
- Pointer aliasing between the request the code returns and the header it renames afterwards (the ACK and CANCEL CSeq) is modelled as a renamed copy in the header list.

## Findings

| source | as written | input that shows it | evidently intended | confidence | as-written member | corrected member |
|---|---|---|---|---|---|---|
| sip/parse_address.go:67-74 | the '*' branch assigns a new `Uri` to the local pointer only, so the caller's Wildcard flag is never set and the To and From checks (lines 111-118, 138-145) can never fire | the To value `*` gives a header with an empty address and no error | a wildcard address is reported to the caller, and To and From reject it | high (not executed) | SipAddress.ToAndFromAcceptStar | SipAddress.AddressValueFixed, SipAddress.FixedRejectsStar |
| sip/parse_address.go:171-181 | after a section is parsed, `h = h.Next` is nil, so every later section goes into a fresh header that is never linked to the returned head | the Contact value `sip:a@h,sip:b@h` yields only `sip:a@h` | every comma-separated address is returned, in order | high (not executed) | SipAddress.ContactKeepsOnlyFirst, SipAddress.RouteKeepsOnlyFirst | SipAddress.ContactListValue, SipAddress.ContactListKeepsAll |
| sip_server/server.go:161-172 | a session created for an unknown device is started but never stored in `sessions` | two REGISTER requests from the same device each create and start a session, and the device is never found; each such session still answers the one REGISTER it was created for | the new session is stored under its device id, so later requests reach it | high (not executed) | Server.EveryRequestCreates, Server.SipServer.FetchOrCreateSession | Server.FirstRequestCreates, Server.SipServer.FetchOrCreateSessionFixed |
| sip/request.go:247-298 | NewInviteRequest appends no Max-Forwards, although the comment above it (lines 243-246) names it mandatory and the sample INVITE carries `Max-Forwards: 70` | any INVITE built for a device | the INVITE carries Max-Forwards 70, as section 8.1.1 of RFC 3261 requires | medium (not executed) | Builders.InviteLacksMaxForwards | Builders.InviteRequestFixed, Builders.FixedInviteHasMandatoryHeaders |
| sip/parse_address.go:211, 246 | parseRouteHeader and parseRecordRouteHeader pass a nil header-parameter map, and ParseAddressValue writes every header parameter into it | the Route value `<sip:p@h;lr>;k=v` panics on the nil map instead of parsing | header parameters of a Route entry are read and ignored, and its address kept | medium (not executed; assumes HeaderParams.Add stores into the map) | SipAddress.RouteParamPanics | SipAddress.RouteValueFixed, SipAddress.RouteFixedKeepsAddress |
