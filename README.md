# MetaMapa Telegram bot: command interpreter and replies

This project models the core of the MetaMapa Telegram bot (`TelegramBot.java`).
The bot takes one chat message and trims it. It picks a command by its leading keyword:
one of six menus, `/coleccion`, `/hecho`, `/agregar_hecho`, `/agregar_pdi`,
`/solicitar_borrado` or `/cambiar_solicitud`. It splits the arguments on `|` and
validates them. It then makes at most one call to one of three backend services: the
aggregator, the sources service (facts and PDIs) or the deletion-request service. The
constructor also builds a client for a PDI service, but no handler uses it: PDIs are
posted to the sources service. Finally it answers the same chat with
one Markdown text, plus a photo for an http(s) PDI image. The three catch clauses turn
a failure into an HTTP, usage or generic error text.

The model is functional, like the class itself, whose fields are all final. Each
handler returns the effects it causes, in order, as a `Run`: backend `Call`s,
`Reply` texts and `Photo`s. A run ends normally or by throwing a `Failure`. The
backends are parameters: a `Backend` is a pair of functions from a request to an
answer (a decoded body, an HTTP error status, or another exception). A message is
handled in four steps:

- `Dispatch.Route` matches the keyword; `Dispatch.FirstMatch` finds the first of the
  twelve prefixes, in the order the source tests them.
- `Dispatch.Plan` runs `splitPipe` and names the handler with its fields.
- `Dispatch.Execute` runs the handler.
- `Dispatch.Respond` sends a menu or the hint as is, and passes a usage error or a
  handler's run through `Dispatch.Outcome`, the catch clauses.

The Java library behaviour the bot depends on is written out in module `JavaLang`:

- `String.trim` strips chars up to U+0020.
- `String.isBlank` uses `Character.isWhitespace`.
- The regex `\s` class.
- `split("\\|")`, which drops trailing empty pieces.
- `String.valueOf(null)`, which gives "null".
- `Integer.toString`.

Modules, in dependency order:

- `JavaLang`
- `Effects`
- `Helpers`: the static helpers.
- `Commands`: the constructor and the six handlers.
- `Dispatch`: `onUpdateReceived`.
- `CommandProperties`, `DispatchProperties`, `ArgumentProperties` (how a creation
  command's argument text becomes the handler's fields) and `ReplyProperties`: the
  lemmas.

## Model

| member | source | states |
|---|---|---|
| Helpers.EstadoEmojiTable | src/main/java/ar/edu/utn/dds/k3003/model/TelegramBot.java:315-323 | null gives white. Case-insensitively, "activo" is green, "pendiente" yellow, "borrado"/"rechazado" red, anything else blue. Each colour holds if and only if its case applies. |
| Helpers.EstadoEmojiIgnoresCase | src/main/java/ar/edu/utn/dds/k3003/model/TelegramBot.java:317 | statuses equal up to ASCII case get the same indicator |
| Helpers.LowerIsLiteral | src/main/java/ar/edu/utn/dds/k3003/model/TelegramBot.java:317-320 | `toLowerCase` equals a lower-case literal exactly when the text equals it ignoring case |
| Helpers.TrimSlash | src/main/java/ar/edu/utn/dds/k3003/model/TelegramBot.java:325-327 | null stays null; one trailing '/' is removed; other URLs are unchanged |
| Helpers.TrimSlashOnce | src/main/java/ar/edu/utn/dds/k3003/model/TelegramBot.java:326 | only one slash goes: a URL ending in "//" keeps one |
| Helpers.TrimAllPieces | src/main/java/ar/edu/utn/dds/k3003/model/TelegramBot.java:330-331 | every piece is trimmed, in order, and none is lost |
| JavaLang.PipePiecesJoin | src/main/java/ar/edu/utn/dds/k3003/model/TelegramBot.java:330 | the pieces the split on '\|' cuts, before trailing empty ones are dropped, lose nothing: joined with '\|' they give the text back |
| JavaLang.NatToStringRoundTrip | src/main/java/ar/edu/utn/dds/k3003/model/TelegramBot.java:333 | the decimal text of a count, as string concatenation writes it, reads back as that count |
| Helpers.SplitPipe | src/main/java/ar/edu/utn/dds/k3003/model/TelegramBot.java:329-335 | it fails with "Se esperaban N campos separados por `\|`" exactly when `split` gives fewer than N pieces; otherwise it returns all the trimmed pieces |
| Helpers.SplitOnPipeJoin | src/main/java/ar/edu/utn/dds/k3003/model/TelegramBot.java:330 | splitting pipe-free fields joined by '\|' gives the fields back (last field non-empty) |
| Helpers.SplitPipeFields | src/main/java/ar/edu/utn/dds/k3003/model/TelegramBot.java:329-335 | fields joined by '\|' come back trimmed and in order, extras included |
| Helpers.SplitPipeNeedsBar | src/main/java/ar/edu/utn/dds/k3003/model/TelegramBot.java:330-333 | a text without '\|' is one field, so a two- or three-field command fails |
| Helpers.SplitPipeDropsTrailingEmpty | src/main/java/ar/edu/utn/dds/k3003/model/TelegramBot.java:330-333 | "a\|" is one field (or none, for "\|"), so it fails a two-field command |
| Helpers.Val | src/main/java/ar/edu/utn/dds/k3003/model/TelegramBot.java:337-342 | the value is null exactly when the map is null or lacks the key, and is the stored value otherwise |
| Helpers.NullTo | src/main/java/ar/edu/utn/dds/k3003/model/TelegramBot.java:344 | a non-blank value is kept; null or blank gives exactly the default, whatever the default; a non-blank default gives a non-blank result |
| Helpers.LooksLikeUrlSchemes | src/main/java/ar/edu/utn/dds/k3003/model/TelegramBot.java:346-348 | every text starting with "http://" or "https://" qualifies. Null, an upper-case "HTTP://", another scheme such as "ftp://" and "http:/x" do not. Whatever qualifies starts with "http". |
| Helpers.SafeIsEscape | src/main/java/ar/edu/utn/dds/k3003/model/TelegramBot.java:351-354 | the three chained replacements equal a single escaping pass (a backslash before each asterisk, underscore and backquote) |
| Helpers.EscapeLength | src/main/java/ar/edu/utn/dds/k3003/model/TelegramBot.java:353 | escaping adds exactly one char per marker |
| Helpers.UnescapeEscape | src/main/java/ar/edu/utn/dds/k3003/model/TelegramBot.java:353 | escaping loses nothing: unescaping restores the text |
| Helpers.SafeSpec | src/main/java/ar/edu/utn/dds/k3003/model/TelegramBot.java:351-354 | null gives ""; otherwise the text is escaped, one char longer per marker, and recoverable |
| Commands.NewClients | src/main/java/ar/edu/utn/dds/k3003/model/TelegramBot.java:25-38 | each of the four base URLs is null iff configured null; a configured URL ending in '/' loses exactly that last '/', any other is kept unchanged |
| Commands.TrimSlashNormalises | src/main/java/ar/edu/utn/dds/k3003/model/TelegramBot.java:34-37 | a base URL still ends in '/' only if the configured one ended in "//" |
| Commands.CreatedId | src/main/java/ar/edu/utn/dds/k3003/model/TelegramBot.java:233 | the id is null only when there is no body; a body without an id gives the text "null" |
| Commands.EchoedEstado | src/main/java/ar/edu/utn/dds/k3003/model/TelegramBot.java:289 | no answer or a blank status gives "pendiente"; a missing status reads "null"; otherwise the answered status |
| CommandProperties.ListarCalls | src/main/java/ar/edu/utn/dds/k3003/model/TelegramBot.java:167-188 | a blank name throws "Falta `<nombre>`" before any call; otherwise one GET of /api/coleccion/{nombre}/hechos, whose answer is rendered or whose failure is thrown |
| CommandProperties.ListingExamples | src/main/java/ar/edu/utn/dds/k3003/model/TelegramBot.java:176-179 | no body or an empty list reads "no tiene hechos cargados"; fifteen facts end with "… y 5 más" |
| CommandProperties.ListingAllShown | src/main/java/ar/edu/utn/dds/k3003/model/TelegramBot.java:181-187 | up to ten facts are all listed, with no count line |
| CommandProperties.ListingTruncates | src/main/java/ar/edu/utn/dds/k3003/model/TelegramBot.java:181-187 | beyond ten, the text is the listing of the first ten plus "… y N-10 más" |
| CommandProperties.ListingLineCount | src/main/java/ar/edu/utn/dds/k3003/model/TelegramBot.java:181-187 | one header line, one line per shown fact (at most ten), and a count line exactly when there are more than ten |
| CommandProperties.EscapeKeepsNewlines | src/main/java/ar/edu/utn/dds/k3003/model/TelegramBot.java:183 | escaping neither adds nor removes line breaks |
| CommandProperties.JoinLinesNewlines | src/main/java/ar/edu/utn/dds/k3003/model/TelegramBot.java:184 | joining n one-line texts gives n-1 line breaks |
| CommandProperties.VerHechoCalls | src/main/java/ar/edu/utn/dds/k3003/model/TelegramBot.java:191-203 | a blank id throws "Falta `<id>`"; otherwise the one call is the GET of /hechos/{id}, and a null body is a "not found" reply |
| CommandProperties.DetailDefaults | src/main/java/ar/edu/utn/dds/k3003/model/TelegramBot.java:205-211 | a missing or blank status shows "activo" (green), whatever the description. A missing or blank description shows "—", whatever the status. A non-blank status or description is shown as given. |
| CommandProperties.HechoBodyFields | src/main/java/ar/edu/utn/dds/k3003/model/TelegramBot.java:220-223 | the body holds the collection and title, and the description exactly when it is not blank |
| CommandProperties.AgregarHechoValidates | src/main/java/ar/edu/utn/dds/k3003/model/TelegramBot.java:215-231 | a blank collection or title throws the usage text with no call; otherwise the first effect is the POST of that body to /hechos |
| CommandProperties.HechoCreatedReply | src/main/java/ar/edu/utn/dds/k3003/model/TelegramBot.java:233-236 | the "no id" warning appears exactly when there is no body; a body without an id is echoed as `null` |
| CommandProperties.AgregarPdiPhoto | src/main/java/ar/edu/utn/dds/k3003/model/TelegramBot.java:245-265 | the first effect is the POST of {hechoId, contenido} to /pdis on the sources client. The run ends normally iff the call succeeds, and otherwise that call is the only effect. After success the creation reply comes second, and a photo follows it iff the URL is http(s). |
| CommandProperties.AgregarPdiValidates | src/main/java/ar/edu/utn/dds/k3003/model/TelegramBot.java:241-243 | a blank id or URL throws the usage text with no call |
| CommandProperties.PdiCreatedReply | src/main/java/ar/edu/utn/dds/k3003/model/TelegramBot.java:258-261 | the "no id" warning appears exactly when there is no body. Otherwise the reply names the id, reading `null` when the body has none. |
| CommandProperties.SolicitudAlwaysPendiente | src/main/java/ar/edu/utn/dds/k3003/model/TelegramBot.java:269-286 | blank fields throw the usage text; otherwise the POST to /solicitudes carries exactly hechoId, motivo and estado "pendiente" |
| CommandProperties.SolicitudCreatedReply | src/main/java/ar/edu/utn/dds/k3003/model/TelegramBot.java:288-292 | the "no id" warning appears exactly when there is no body. Otherwise the reply starts with the echoed id and ends with the echoed status. A body with only an id reads "estado: `null`". |
| CommandProperties.CambiarValidates | src/main/java/ar/edu/utn/dds/k3003/model/TelegramBot.java:296-306 | a blank id or status throws the usage text with no call; otherwise the PATCH of {estado} to /solicitudes/{id} comes first and is the only call, and a failed PATCH ends the run with that failure |
| CommandProperties.CambiarIgnoresAnswer | src/main/java/ar/edu/utn/dds/k3003/model/TelegramBot.java:296-312 | one PATCH of {estado} to /solicitudes/{id}; the confirmation does not depend on what the PATCH answered |
| Effects.CallFailure | src/main/java/ar/edu/utn/dds/k3003/model/TelegramBot.java:155-160 | an HTTP error becomes the HTTP failure with its status and body; anything else is a generic failure with its message, never a usage error |
| DispatchProperties.MenuKeywords | src/main/java/ar/edu/utn/dds/k3003/model/TelegramBot.java:50-111 | any text starting with a menu keyword shows that menu, whatever follows (so "/startx" and "/pdis" are menus too) |
| Dispatch.FirstMatch | src/main/java/ar/edu/utn/dds/k3003/model/TelegramBot.java:50-151 | the chosen prefix is one the text starts with, and no prefix tested before it matches; none chosen means none from that point on matches |
| DispatchProperties.ColeccionKeyword | src/main/java/ar/edu/utn/dds/k3003/model/TelegramBot.java:113-117 | "/coleccion " plus any text lists that collection. The name is that text trimmed, whatever the spacing. |
| DispatchProperties.HechoKeyword | src/main/java/ar/edu/utn/dds/k3003/model/TelegramBot.java:119-123 | "/hecho " plus any text shows that fact. The id is that text trimmed, whatever the spacing. |
| DispatchProperties.AgregarHechoKeyword | src/main/java/ar/edu/utn/dds/k3003/model/TelegramBot.java:125-130 | "/agregar_hecho " plus any text asks for a fact to be created. The arguments are that text without its leading spaces. |
| DispatchProperties.AgregarPdiKeyword | src/main/java/ar/edu/utn/dds/k3003/model/TelegramBot.java:132-137 | "/agregar_pdi " plus any text asks for a PDI to be created. The arguments are that text without its leading spaces. |
| DispatchProperties.SolicitarBorradoKeyword | src/main/java/ar/edu/utn/dds/k3003/model/TelegramBot.java:139-144 | "/solicitar_borrado " plus any text asks for a deletion request. The arguments are that text without its leading spaces. |
| DispatchProperties.CambiarSolicitudKeyword | src/main/java/ar/edu/utn/dds/k3003/model/TelegramBot.java:146-151 | "/cambiar_solicitud " plus any text asks for a status change. The arguments are that text without its leading spaces. |
| DispatchProperties.BareColeccion | src/main/java/ar/edu/utn/dds/k3003/model/TelegramBot.java:113 | "/coleccion" alone, without its space, is not understood |
| DispatchProperties.BareHecho | src/main/java/ar/edu/utn/dds/k3003/model/TelegramBot.java:119 | "/hecho" alone, without its space, is not understood |
| DispatchProperties.BareAgregarHecho | src/main/java/ar/edu/utn/dds/k3003/model/TelegramBot.java:125 | "/agregar_hecho" alone, without its space, is not understood |
| DispatchProperties.BareAgregarPdi | src/main/java/ar/edu/utn/dds/k3003/model/TelegramBot.java:132 | "/agregar_pdi" alone, without its space, is not understood |
| DispatchProperties.BareSolicitarBorrado | src/main/java/ar/edu/utn/dds/k3003/model/TelegramBot.java:139 | "/solicitar_borrado" alone, without its space, is not understood |
| DispatchProperties.BareCambiarSolicitud | src/main/java/ar/edu/utn/dds/k3003/model/TelegramBot.java:146 | "/cambiar_solicitud" alone, without its space, is not understood |
| DispatchProperties.NoPrefixUnrecognized | src/main/java/ar/edu/utn/dds/k3003/model/TelegramBot.java:50-153 | a text starting with none of the twelve keywords is not understood |
| DispatchProperties.UnrecognizedNoPrefix | src/main/java/ar/edu/utn/dds/k3003/model/TelegramBot.java:50-153 | a text that is not understood starts with none of the keywords |
| DispatchProperties.UnrecognizedReply | src/main/java/ar/edu/utn/dds/k3003/model/TelegramBot.java:153 | such a message gets exactly the "No entendí ese comando" reply and no call |
| DispatchProperties.ColeccionArgumentPresent | src/main/java/ar/edu/utn/dds/k3003/model/TelegramBot.java:113-115 | the name a `/coleccion` message passes on is never empty and neither starts nor ends with a char up to U+0020 |
| DispatchProperties.HechoArgumentPresent | src/main/java/ar/edu/utn/dds/k3003/model/TelegramBot.java:119-121 | the id a `/hecho` message passes on is never empty and neither starts nor ends with a char up to U+0020 |
| ReplyProperties.ExecuteWellFormed | src/main/java/ar/edu/utn/dds/k3003/model/TelegramBot.java:166-312 | every handler makes at most one call and at most one reply to the sender's chat, and sends a photo only after a PDI call; a throw comes at most after the call that failed; three effects only for a PDI |
| ReplyProperties.RespondOneExchange | src/main/java/ar/edu/utn/dds/k3003/model/TelegramBot.java:49-161 | whatever the decided action, the chat gets exactly one reply, after at most one call; three effects only for a PDI |
| ReplyProperties.RejectResponse | src/main/java/ar/edu/utn/dds/k3003/model/TelegramBot.java:155-158 | a refused command produces just the reply carrying the failure's text |
| ReplyProperties.OneMessageOneReply | src/main/java/ar/edu/utn/dds/k3003/model/TelegramBot.java:43-162 | no message or no text gives no effect at all. Otherwise there is exactly one reply, to the sender's chat, after at most one call; three effects only for a PDI. |
| ReplyProperties.FailureTextKinds | src/main/java/ar/edu/utn/dds/k3003/model/TelegramBot.java:155-160 | the reply starts with the HTTP, usage or error prefix exactly when the failure is of that kind |
| ReplyProperties.HttpText | src/main/java/ar/edu/utn/dds/k3003/model/TelegramBot.java:156 | an HTTP failure starts with "HTTP " and its status code, and ends with its response body between code fences. It carries neither the usage nor the error prefix. |
| ReplyProperties.UsageText | src/main/java/ar/edu/utn/dds/k3003/model/TelegramBot.java:158 | a usage failure shows its message after "Uso inválido" |
| ReplyProperties.ErrorText | src/main/java/ar/edu/utn/dds/k3003/model/TelegramBot.java:160 | any other failure shows its message, or "null" when it has none |
| ArgumentProperties.CreationFields | src/main/java/ar/edu/utn/dds/k3003/model/TelegramBot.java:125-151 | the fields after a creation keyword reach the handler trimmed and in order |
| ArgumentProperties.BindTrimmed | src/main/java/ar/edu/utn/dds/k3003/model/TelegramBot.java:128-149 | the handler gets the first three (fact) or two (others) trimmed fields |
| ArgumentProperties.TooFewFields | src/main/java/ar/edu/utn/dds/k3003/model/TelegramBot.java:127-148 | without a '\|' the command is refused with "Se esperaban 3" (fact) or "Se esperaban 2" (others) |
| ReplyProperties.CreationMessage | src/main/java/ar/edu/utn/dds/k3003/model/TelegramBot.java:47-151 | a whole creation message (keyword, space, pipe-free fields joined by '\|') asks for that handler with the fields trimmed, in order, however the fields are padded in front or behind (the message's own trim at line 47 removes the padding after the last field). The last field must hold a char above U+0020: a blank last field is trimmed off with the message and then dropped by `split`. |
| ReplyProperties.SingleFieldMessage | src/main/java/ar/edu/utn/dds/k3003/model/TelegramBot.java:47-151 | a whole creation message with one pipe-free field holding a char above U+0020 is refused with the field-count usage error, however the field is padded in front or behind. |
| ReplyProperties.RejectedMessage | src/main/java/ar/edu/utn/dds/k3003/model/TelegramBot.java:155-158 | a refused command is answered with the failure's text alone, with no backend call |

## Left out

- The WebClient calls themselves are not modelled: the reactive pipeline, JSON (de)serialisation and URI-template expansion and percent-encoding. A call is a `Request` value, and its outcome is a parameter.
- Delivery to Telegram is not modelled (`reply`, `sendPhoto`, `execute`, the Markdown parse mode). A reply or photo is an effect. `reply` swallowing a send exception is not modelled, and neither is the "No pude enviar la imagen" text that `sendPhoto` sends when the photo fails.
- Helpers.EstadoEmojiTable: `toLowerCase` is modelled for ASCII letters only. Locale-specific and non-ASCII case mappings are not modelled.
- The text of exceptions other than HTTP and usage errors (connection, timeout, decoding) is an input (`CallError`). The model does not produce those texts.
- The JSON values of a fact are kept as the strings `String.valueOf` would render. Numbers, booleans and nested objects are not told apart.
- Integers: `getRawStatusCode` and the chat id are unbounded integers. The `long` chat id cannot overflow in any case that matters here.
- The bot token, `getBotUsername`, the long-polling registration and the rest of the application (configuration, runner, other classes) are not part of this model.
- Chars are Dafny chars, one per Unicode code point. No modelled operation depends on the UTF-16 length of a text.
- An unreachable service and an unknown error both get the generic "Error" text (lines 159-160).
- `/hecho` replies with text only and sends no image (lines 191-212).
- The aggregator path is /api/coleccion/{nombre}/hechos (line 170).
