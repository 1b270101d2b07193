# Lector-Final: fingerprint client and server, modelled in Dafny

Lector-Final pairs a fingerprint-reader client with a server that stores and identifies
templates, both built around the Neurotec biometric SDK. This project models the
deterministic orchestration between the SDK calls and proves properties of it.

The model covers these parts:

- **Template naming.** A template is stored as `Long.toString(nanoTime) + "-" + nombre` under
  the configured directory. The path is plain concatenation with no separator. Identification
  recovers the display name as everything after the *first* `-`.
- **Identification pipeline.** The directory listing becomes `listaHuellas`. Entry *i* is
  enrolled under the id `String.format("%d", i)`. The matcher's outcome is folded into
  `posicion`: the last parsed id, -2 for no match, or the previous value when something
  throws first. `posicion` is then mapped to one of five answers: "not read", "directory
  missing", "no match", the display name of the matched entry, or, for a value outside the
  list, the `IndexOutOfBoundsException` that `ArrayList.get` throws.
- **Operation dispatcher.** `manejador` dispatches on the strings "guardar", "leerArchivo" and
  "identificar".
- **Server reader.** A constructor plus read and save.
- **Licence gates.** The server's loop tries every licence. The client's loop stops at the
  first failure.
- **Server facades.** `InterServerImp` keeps an append-only log and a file list that is never
  cleared. `InterfazServer` overwrites its message and rebuilds the list on every call.
- **Client capture.** The status poll loop with its bad-object flag, and the scanner-selection
  rule.
- **Client facades.** `ClienteImp` keeps an append-only log. `InterfazCliente` overwrites its
  message. Both have the `isOpen`/`primeraLectura` session flags.

The SDK and the machine appear as parameters:

- **Licence server:** a function from component name to `Granted | Denied | Threw(IOException |
  TimeoutException)`.
- **Filesystem:** a value `map<string, seq<byte>>` that is passed in and returned. Whether a
  write succeeds is a boolean.
- **Directory listing:** an `Option<seq<string>>`, where None means the directory does not
  exist.
- **Matcher:** a pair of functions. One is enrolment success. The other maps a query, corpus
  and settings to `Matched(ids) | MatchNotFound`.
- **Quality probe:** "the template has no fingers" is a boolean.
- **Capture task:** its successive `getStatus()` values are a finite sequence.
- **Device manager:** its enumeration is a sequence of devices, or None when it throws.
- **`System.nanoTime()`:** the parameter `time`.

Java values are modelled explicitly:

- A Java `null` is an `Option`. The one exception is a log that is appended to: Java renders
  a `null` string as `"null"`, so such a log starts with that text.
- An exception is a `Reply` value (`Returned | Thrown(message) | IndexOutOfBounds(index) |
  Escaped`, the last for an SDK exception that propagates uncaught) or a `false`/`None` result.
- `Long.toString`, `String.format("%d")`, `Integer.parseInt` and `String.indexOf` are written
  out in the `Decimal` and `Naming` modules.

Three behaviours of the code that are easy to misread:

- **Names with a dash.** The code splits a stored name at its *first* `-`, and a non-negative
  timestamp has no `-`, so a display name that itself contains `-` comes back intact
  (`Naming.RecoverDisplayName`, `Naming.DashedNameExample`).
- **No poll timeout.** The capture poll loop has no ceiling. The model runs the loop over
  whatever statuses it is given and proves that statuses that are neither OK nor BAD_OBJECT
  never end it (`ClientLector.OtherStatusNeverExits`).
- **Append or overwrite.** Only `InterServerImp` and `ClienteImp` append to their message.
  `InterfazServer` and `InterfazCliente` overwrite it on every operation.

Some consequences of the code that the model makes visible:

- **Negative timestamps.** `System.nanoTime()` may be negative. The minus sign is then the
  first `-`, and the recovered name keeps the digits (`Naming.NegativeTimestampKeepsDigits`).
- **Dead branch in `ClienteImp.leerHuella`.** Once a scanner is selected, the poll ends only in
  OK or BAD_OBJECT. So the branch that appends "La huella no ha sido leida" can never be taken;
  it is an `assert false` in `ClienteImp.ClienteImp.LeerHuella`.
- **Unreachable catch in `identificarHuella`.** The handler that reports a badly formatted name
  cannot be reached, because the substring start `indexOf('-') + 1` always lies within the
  name (`Naming.DisplayName`). An out-of-range `posicion` throws from `ArrayList.get` before
  that `try`, which is the `IndexOutOfBounds` reply.
- **Rescan on every read.** `if (this.primeraLectura = true)` is an assignment. Every
  `leerHuella` therefore rescans, and afterwards `primeraLectura` is false. The model performs
  the assignment and then the test.
- **Same list on both sides.** `InterServerImp` never clears `listaHuellas`. Each
  `identificarHuella` appends the current listing, and the whole grown list is both enrolled
  and indexed.
- **Stale answers.** An identification that throws before its first assignment (an
  unreadable listed file) leaves `posicion` as an earlier call left it. `InterfazServer`
  rebuilds its list on every call, so that old index is answered as a match on whatever file
  now sits there (`InterfazServer.StalePositionAnswersCurrentEntry`).
- **Enumeration failure in `leerHuella`.** Neither client catches an exception from
  `getDevices()` there. It escapes to the caller after `primeraLectura` has been cleared and
  the scanner list emptied (the `Escaped` reply).

Files: `wrappers.dfy`, `decimal.dfy`, `naming.dfy`, `sdk.dfy` (helpers and oracle types),
then one file per source class: `server_lector.dfy`, `identify_finger.dfy`, `mapeador.dfy`,
`server_licencias.dfy`, `verdicts.dfy` (the outcome table both server facades share),
`inter_server_imp.dfy`, `interfaz_server.dfy`, `client_licencias.dfy`, `client_lector.dfy`,
`cliente_imp.dfy`, `interfaz_cliente.dfy`.

## Model

| member | source | states |
|---|---|---|
| Decimal.LongToString | Server/src/webServices/InterServerImp.java:130 | `Long.toString`: the decimal numeral, with a leading `-` for a negative value; its properties are the lemmas below |
| Decimal.ParseSigned | Server/src/local/IdentifyFinger.java:107 | the numeral reader behind `Integer.parseInt`: an optional `-` and at least one ASCII digit |
| Decimal.ParseInt | Server/src/local/IdentifyFinger.java:107 | `Integer.parseInt`: a result is always a Java int and is the value of the signed numeral; otherwise it throws (None) |
| Decimal.ParseSignedOfLongToString | Server/src/webServices/InterServerImp.java:130 | the decimal numeral `Long.toString(t)` reads back as `t` for every integer, negatives included |
| Decimal.ParseIntOfFormat | Server/src/local/IdentifyFinger.java:79-107 | `Integer.parseInt(String.format("%d", i)) == i` for every Java int, so enrolment ids parse back to their index |
| Decimal.DigitsHaveNoDash | Server/src/webServices/InterServerImp.java:130 | the numeral of a non-negative timestamp contains no `-` |
| Naming.FileName | Server/src/webServices/InterServerImp.java:127-130 | the stored name `Long.toString(time) + "-" + nombre`; its properties are `Naming.FileNameDecodes` and `Naming.RecoverDisplayName` |
| Naming.IndexOf | Server/src/webServices/InterServerImp.java:285 | `indexOf(c)`: -1 exactly when `c` is absent; otherwise a position holding `c` with no earlier `c` |
| Naming.DisplayName | Server/src/webServices/InterServerImp.java:285-287 | the recovered name is a suffix of the file name, so `substring(indexOf('-')+1)` never fails |
| Naming.IndexOfAfterPrefix | Server/src/webServices/InterServerImp.java:285 | in `a + "-" + b` with no `-` in `a`, the first `-` is at `|a|` |
| Naming.RecoverDisplayName | Server/src/webServices/InterServerImp.java:285-287 | for a non-negative timestamp, recovering the name built at line 130 gives back `nombre` for every `nombre`, dashes included |
| Naming.FileNameDecodes | Server/src/webServices/InterServerImp.java:127-136 | a stored name splits at its first `-` into the timestamp's decimal numeral and `nombre` |
| Naming.NoSeparatorKeepsWholeName | Server/src/webServices/InterServerImp.java:285-287 | a file name with no `-` comes back whole (start index -1 + 1 = 0) |
| Naming.NegativeTimestampKeepsDigits | Server/src/webServices/InterServerImp.java:127-130 | for a negative timestamp the minus sign is the first `-`, and the recovered name is the magnitude's digits, `-`, `nombre` |
| Naming.DashedNameExample | Server/src/webServices/InterServerImp.java:130 | "a-b" saved at time 5 is the file "5-a-b", and it is recovered as "a-b" |
| ServerLector.Lector.constructor | Server/src/local/Lector.java:29-31 | a new reader holds a non-null, empty subject |
| ServerLector.Lector.ReadFromFile | Server/src/local/Lector.java:35-40 | succeeds exactly when the file exists; the subject is replaced first, so after a failure it is a fresh empty one |
| ServerLector.Lector.SaveTemplate | Server/src/local/Lector.java:44-51 | with a subject, writes its template to exactly `path` and reports the write's success; with none, writes nothing and does not fail |
| IdentifyFinger.Corpus | Server/src/local/IdentifyFinger.java:78-80 | the enrolment loop as a value; described entry by entry by `IdentifyFinger.CorpusAt` |
| IdentifyFinger.ApplyMatches | Server/src/local/IdentifyFinger.java:102-108 | the result loop as a value; described by `IdentifyFinger.LastMatchWins` |
| IdentifyFinger.Identification | Server/src/local/IdentifyFinger.java:69-124 | one `identify()` as a value; its cases are `IdentifyFinger.NotFoundGivesMinusTwo`, `IdentifyFinger.UnreadableFileKeepsPosicion` and `IdentifyFinger.MatchedIndexInRange` |
| IdentifyFinger.CorpusAt | Server/src/local/IdentifyFinger.java:78-80 | the corpus exists iff every `path + names[i]` is readable; then it has one entry per name, and entry i is that file under id `"%d"` of i |
| IdentifyFinger.LastMatchWins | Server/src/local/IdentifyFinger.java:102-108 | when the ids are corpus ids, `posicion` ends as the index whose id came last, in `[0, n)` |
| IdentifyFinger.NotFoundGivesMinusTwo | Server/src/local/IdentifyFinger.java:116-118 | MATCH_NOT_FOUND after a successful enrolment sets `posicion` to -2 |
| IdentifyFinger.UnreadableFileKeepsPosicion | Server/src/local/IdentifyFinger.java:78-80 | an unreadable listed file throws before any assignment; `posicion` keeps its previous value |
| IdentifyFinger.MatchedIndexInRange | Server/src/local/IdentifyFinger.java:102-108 | on OK with corpus ids, `posicion` indexes the list, and that entry's corpus subject is the file `path + names[posicion]` under the last id |
| IdentifyFinger.IdentifyFinger.constructor | Server/src/local/IdentifyFinger.java:26 | `posicion` starts at -1 |
| IdentifyFinger.IdentifyFinger.CreateSubject | Server/src/local/IdentifyFinger.java:132-138 | reads exactly `fileName` into a subject with the given id; fails iff the file cannot be read |
| IdentifyFinger.IdentifyFinger.Identify | Server/src/local/IdentifyFinger.java:69-124 | the enrolment loop and the result loop compute `Identification` with threshold 40 and details on: a thrown exception leaves `posicion` as it was, MATCH_NOT_FOUND gives -2, OK gives the ids in turn; only `posicion` changes |
| Mapeador.Mapeador.constructor | Server/src/local/Mapeador.java:63-66 | a fresh reader and a fresh identifier |
| Mapeador.Mapeador.Manejador | Server/src/local/Mapeador.java:72-124 | exact-string dispatch over the table at line 34. Other strings do nothing and return false. "guardar" is true iff the save did not fail. "leerArchivo" is true iff the read did not fail. "identificar" copies names, path and id, identifies only with a non-null subject, otherwise leaves the result state alone, and always returns false |
| ServerLicencias.RecordAll | Server/src/local/Licencias.java:40-53 | the no-early-exit licence loop as a value; described by the two lemmas below |
| ServerLicencias.RecordAllAttemptsEvery | Server/src/local/Licencias.java:40-53 | normal return iff no attempt throws; then every listed licence is recorded with whether it was granted, denials included, and no other entry changes |
| ServerLicencias.RecordAllOnException | Server/src/local/Licencias.java:40-53 | an exception comes from some listed licence and adds no keys beyond the listed ones |
| ServerLicencias.Licencias.constructor | Server/src/local/Licencias.java:22-25 | a new instance has an empty map and an empty required list |
| ServerLicencias.Licencias.ParsearLicenses | Server/src/local/Licencias.java:28-54 | appends FingerMatching to the required list (duplicates accumulate) and runs the no-early-exit loop over the whole list |
| ServerLicencias.Licencias.GetLicenseState | Server/src/local/Licencias.java:56-58 | the recorded boolean, or None (the unboxing NullPointerException) exactly for a licence never recorded |
| ServerLicencias.FreshCallRecordsFingerMatching | Server/src/local/Licencias.java:34-45 | after a first call that returns normally, the map holds exactly FingerMatching with whether it was granted |
| Verdicts.Classify | Server/src/webServices/InterServerImp.java:263-280 | the outcome table, case by case: -1 is "not read"; -2 is "directory missing" or "no match" by whether the directory exists; a list index is a match; anything else makes `get` throw |
| Verdicts.SaveThenIdentify | Server/src/webServices/InterServerImp.java:280-287 | a template stored as `FileName(time, nombre)` at list index i that the matcher reports is answered with exactly `nombre` |
| Verdicts.AnswerIsTheMatchedFile | Server/src/webServices/InterServerImp.java:259-280 | with corpus ids, the answer is a match on the list entry enrolled under the last result's id, and that file exists |
| Verdicts.EmptyStoreAnswersNoMatch | Server/src/webServices/InterServerImp.java:267-276 | an existing empty directory in which the matcher finds nothing is answered "no match" |
| Verdicts.MissingDirectoryIsDistinguished | Server/src/webServices/InterServerImp.java:267-272 | a missing directory with no match is "directory missing", a different answer from "no match" |
| InterServerImp.InterServerImp.constructor | Server/src/webServices/InterServerImp.java:61-65 | a fresh dispatcher whose reader holds a subject, a fresh licence object and an empty list |
| InterServerImp.LicenceLog | Server/src/webServices/InterServerImp.java:96-108 | the log lines for each licence reply: one line when granted, none when denied, two for an IOException, one for a timeout |
| InterServerImp.InterServerImp.ObtenerLicencias | Server/src/webServices/InterServerImp.java:89-110 | a new licence object runs one call; -1 only on IOException or timeout, 0 even when denied; the log grows by exactly the lines for that reply |
| InterServerImp.InterServerImp.GuardarHuella | Server/src/webServices/InterServerImp.java:114-153 | quality gate first: with no fingers, appends and throws the whole log without saving. Otherwise saves at `directorio + FileName(time, nombre)`, returns 0 iff the write succeeds and -1 otherwise, and appends that branch's line |
| InterServerImp.InterServerImp.CargarArchivos | Server/src/webServices/InterServerImp.java:156-171 | appends the listing in order and never clears the list; a missing directory leaves it unchanged |
| InterServerImp.InterServerImp.Identify | Server/src/webServices/InterServerImp.java:175-188 | returns the `posicion` the identification leaves for this list and directory |
| InterServerImp.InterServerImp.IdentificarHuella | Server/src/webServices/InterServerImp.java:240-293 | quality gate before any listing. The grown list is enrolled and indexed, and each row of the outcome table appends its line and throws the whole log, or returns the suffix after the first `-` |
| InterServerImp.Launch | Server/src/webServices/InterServerImp.java:295-323 | licences are requested only when the configuration step returned 0, and the service is published iff both returned 0 |
| InterfazServer.PosicionAfterRange | Server/src/local/IdentifyFinger.java:102-118 | whatever the matcher answers with corpus ids, `posicion` ends at its old value, at -2 or at an index of the list |
| InterfazServer.StalePositionAnswersCurrentEntry | Server/src/local/InterfazServer.java:145-181 | with an unreadable listed file, an index left by an earlier call survives and is answered as a match on the current list's entry at that index |
| InterfazServer.InterfazServer.constructor | Server/src/local/InterfazServer.java:15-21 | Java defaults: no message, no licence object, no dispatcher |
| InterfazServer.InterfazServer.SetMapeador | Server/src/local/InterfazServer.java:27-29 | sets the dispatcher and nothing else |
| InterfazServer.InterfazServer.ObtenerLicencias | Server/src/local/InterfazServer.java:52-73 | 0 iff the licence was granted, -1 otherwise; each exception overwrites the message with its own text |
| InterfazServer.InterfazServer.CargarArchivos | Server/src/local/InterfazServer.java:76-92 | appends the listing in order; a missing directory adds nothing |
| InterfazServer.InterfazServer.GuardarHuella | Server/src/local/InterfazServer.java:94-127 | no quality check; saves the given subject at `directorio + FileName(time, nombre)`; 0 iff the dispatcher reports success (always, for a null subject), with the message overwritten |
| InterfazServer.InterfazServer.LeerArchivo | Server/src/local/InterfazServer.java:129-142 | replaces the dispatcher with a fresh one; 0 iff the file could be read, with that outcome's message |
| InterfazServer.InterfazServer.Identify | Server/src/local/InterfazServer.java:185-196 | returns the `posicion` the dispatcher leaves, stale for a null subject |
| InterfazServer.InterfazServer.IdentificarHuella | Server/src/local/InterfazServer.java:145-181 | the list equals exactly the current listing (empty if the directory is missing); the same outcome table applies, each message overwriting the last |
| ClientLicencias.ObtainInOrder | Client/src/local/Licencias.java:49-63 | the early-exit licence loop as a value; described by the two lemmas below |
| ClientLicencias.ObtainedIffAllGranted | Client/src/local/Licencias.java:49-63 | true iff every required licence was granted; then each is recorded true and nothing else changes |
| ClientLicencias.StopsAtFirstFailure | Client/src/local/Licencias.java:49-61 | the first licence not granted ends the loop with false, later ones are never attempted, and a denial is recorded false before the return |
| ClientLicencias.Licencias.constructor | Client/src/local/Licencias.java:29-31 | a new instance has an empty licence map |
| ClientLicencias.Licencias.ObtenerLicencias | Client/src/local/Licencias.java:34-64 | resets the required list to exactly FingerExtraction and runs the early-exit loop against the map kept from earlier calls |
| ClientLicencias.OneCallRecordsReply | Client/src/local/Licencias.java:37-63 | one call records true or false for FingerExtraction unless the request threw, and reports obtained iff granted |
| ClientLector.ExitsAt | Client/src/local/Lector.java:90-100 | the exit test of read i: OK at a loop head, BAD_OBJECT after a sleep |
| ClientLector.PollFrom | Client/src/local/Lector.java:90-102 | the loop ends at the first read whose test succeeds: OK at the loop head (capture after that many sleeps) or BAD_OBJECT after a sleep; it polls on iff no read ever does |
| ClientLector.Poll | Client/src/local/Lector.java:90-102 | the whole poll, from the first read; described by `ClientLector.PollFrom` |
| ClientLector.Exits | Client/src/local/Lector.java:90-102 | the observed statuses end the poll |
| ClientLector.OtherStatusNeverExits | Client/src/local/Lector.java:90-101 | statuses that are neither OK nor BAD_OBJECT never end the loop (there is no ceiling) |
| ClientLector.ImmediateOkCaptures | Client/src/local/Lector.java:90 | an immediate OK captures with no sleep |
| ClientLector.BadObjectAtHeadIsIgnored | Client/src/local/Lector.java:90-100 | BAD_OBJECT seen at the loop head is passed over: the poll goes on from the next read, and an OK at the next loop head captures after one sleep |
| ClientLector.SelectScanner | Client/src/local/Lector.java:129-134 | the selection rule: with no scanner in use, the first device if any; with one in use, that scanner if it is listed, otherwise nothing; a selection is always a listed device |
| ClientLector.RescanKeepsScannerInUse | Client/src/local/Lector.java:129-134 | once the selected scanner is in use, a rescan of the same devices selects it again |
| ClientLector.LostScannerIsNotReplaced | Client/src/local/Lector.java:132-134 | a scanner in use that is no longer listed leaves nothing selected, even when other devices are listed |
| ClientLector.Lector.constructor | Client/src/local/Lector.java:44-62 | no subject, no scanners, no selection, no client scanner |
| ClientLector.Lector.StartCapturing | Client/src/local/Lector.java:65-103 | clears the bad-object flag. With no selected scanner it returns false at once. Otherwise it sets the client's scanner and a one-finger subject, and the poll decides: true iff captured, flag set iff BAD_OBJECT. True implies the flag is clear |
| ClientLector.Lector.UpdateScannerList | Client/src/local/Lector.java:119-135 | the list becomes the enumerated devices in order and the selection follows the rule; a failed enumeration leaves an empty list with no selection |
| ClienteImp.OpenAnswer | Client/src/webServices/ClienteImp.java:84-100 | `abrir`'s codes: 0 iff granted, -3 iff denied, -1 iff timeout, -2 iff any other exception |
| ClienteImp.ClienteImp.constructor | Client/src/webServices/ClienteImp.java:58-63 | `primeraLectura` true, `isOpen` false, fresh reader and licence object |
| ClienteImp.ClienteImp.GetSubject | Client/src/webServices/ClienteImp.java:71-79 | before any capture, logs and throws "Aun no se ha leido huella desde el lector"; otherwise returns the reader's subject |
| ClienteImp.ClienteImp.Abrir | Client/src/webServices/ClienteImp.java:81-102 | sets `isOpen` before requesting the licence; returns the code for the reply and appends its line |
| ClienteImp.ClienteImp.Eco | Client/src/webServices/ClienteImp.java:105-129 | rescans; 0 and the scanner's description when one is selected, -1 when none is, -2 "Error interno" when enumeration throws |
| ClienteImp.ClienteImp.LeerHuella | Client/src/webServices/ClienteImp.java:132-169 | always rescans and leaves `primeraLectura` false. A failed enumeration escapes with an empty list and the log untouched. -2 when no scanner is selected, without capturing. Otherwise -1 with the low-quality line for a bad object, or 0 for a capture |
| ClienteImp.ClienteImp.Cerrar | Client/src/webServices/ClienteImp.java:172-182 | 0 with "Cierre" iff `abrir` has run, whatever it answered; otherwise -1 |
| InterfazCliente.InterfazCliente.constructor | Client/src/local/InterfazCliente.java:20-29 | `primeraLectura` true, `isOpen` false, no message |
| InterfazCliente.InterfazCliente.Abrir | Client/src/local/InterfazCliente.java:40-56 | 0 whenever licence acquisition returns, granted or not, with the message untouched; -1 on timeout, -2 on any other exception |
| InterfazCliente.InterfazCliente.Eco | Client/src/local/InterfazCliente.java:59-84 | the same codes as the web-service client, with the message overwritten |
| InterfazCliente.InterfazCliente.LeerHuella | Client/src/local/InterfazCliente.java:87-118 | always rescans; a failed enumeration escapes with an empty list and the message untouched; -2 with no scanner; otherwise 0 iff the capture succeeded, -1 for any other end, bad objects included |
| InterfazCliente.InterfazCliente.Cerrar | Client/src/local/InterfazCliente.java:121-132 | 0 with the message untouched iff `abrir` has run; otherwise -1 with a message |

## Left out

- `leerConfiguracion` in every class: properties-file I/O. The directory it would read is a constructor parameter, and its return code is a parameter of `InterServerImp.Launch`.
- InterServerImp.Launch: says nothing about the log after start-up, because the configuration step that writes to it is not modelled.
- `ping`, `servicioActivo`, `publicar`/`Endpoint.publish` and `ClienteWS.main`: network reachability and web-service wiring.
- `NCore.shutdown` in `cerrar`, the 12-second start-up sleep, `Thread.sleep` between polls, `CaptureCompletionHandler` and the `scanning` flag: timing and asynchronous threading. A sleep is counted, not timed.
- The `System.exit` paths in `IdentifyFinger.identify` (enrolment not OK without an error, identification status other than OK or MATCH_NOT_FOUND): process termination. A failed enrolment is the matcher's `enrol` returning false, which stands for the exception thrown at line 87. An exception caught around `identify` at lines 96-100 is folded into the matcher's answer.
- The SDK's algorithms: extraction, enrolment, scoring and template decoding are the `Matcher` oracle. The "no fingers" probe is a boolean. Devices compare by value.
- Concurrency between web-service requests sharing `listaHuellas` and `mensaje`.
- Static fields (`directorio` and `mensaje` of `InterfazServer`, the client's address fields) are per-instance fields.
- InterfazServer.InterfazServer.GuardarHuella, InterfazServer.InterfazServer.IdentificarHuella and InterfazServer.InterfazServer.Identify: they require a dispatcher, because the source throws a NullPointerException when none was set.
- Other Java `null` defaults: the directory before configuration, `InterfazServer.listaHuellas` before its first identification, the client reader's scanner list before its first rescan, and the client licence object's required list before its first request. These are an empty string or an empty list rather than a later NullPointerException. A `null` property from the configuration file is not modelled.
- Plain getters and setters (`getMensaje`, `getListaHuellas`, `isBad_object`, `getSelectedScanner`, `InterfazCliente.getSubject`, `setLicencia` and the rest): field reads and writes, used directly.
- ClientLector.Lector.StartCapturing, ClienteImp.ClienteImp.LeerHuella and InterfazCliente.InterfazCliente.LeerHuella: they require that the given statuses end the poll once a scanner is listed and selected. The source loop is unbounded, and runs that never end are described only by `ClientLector.OtherStatusNeverExits`.
- ServerLector.Lector.SaveTemplate: a failed write leaves the store unchanged; partial writes are not modelled.
- Decimal.ParseInt: digits only in ASCII; `Integer.parseInt` also accepts other Unicode decimal digits, which `String.format("%d")` does not produce under the default locale.
- The captured template's contents: the client reader's subject records only that it was prepared with one finger.
