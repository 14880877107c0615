/** `onUpdateReceived`: reads the message, routes its trimmed text to a menu or a
    command handler, and turns whatever the handler throws into a reply. */
module Dispatch {
  import opened JavaLang
  import opened Effects
  import opened Helpers
  import opened Commands

  /** The part of a Telegram update the bot reads. */
  datatype Message = Message(chatId: int, text: Option<string>)
  datatype Update = Update(message: Option<Message>)

  // ---------------------------------------------------------------- menus

  /** `/start`: the welcome menu. */
  const StartText: string :=
    "🤖 *¡Bienvenido a MetaMapa!* 📍\n\nElegí una sección para ver sus comandos:\n• `/agregador`  🗂\U{FE0F}  Listados\n• `/fuente`     📰  Hechos\n• `/pdi`        🖼\U{FE0F}  Agregar PDI a Hechos\n• `/solicitud`  🧹  Solicitudes de borrado\n• `/todas`      📚  Ver todo el menú\n\n_Tip:_ usá la barra `/` para autocompletar comandos.\n"

  /** `/agregador`: the aggregator commands. */
  const AgregadorText: string :=
    "🗂\U{FE0F} *Agregador* — comandos:\n• `/coleccion <nombre>` — Lista los *hechos* de esa colección\n"

  /** `/fuente`: the fact commands. */
  const FuenteText: string :=
    "📰 *Fuente* — comandos:\n• `/hecho <id>` — Muestra detalle de un hecho\n• `/agregar_hecho <coleccion> | <titulo> | <descripcion>` — Crea un hecho\n"

  /** `/pdi`: the PDI command. */
  const PdiText: string :=
    "🖼\U{FE0F} *PDI* — comandos:\n• `/agregar_pdi <hechoId> | <urlImagen>` — Agrega un PDI a un hecho\n"

  /** `/solicitud`: the deletion-request commands. */
  const SolicitudText: string :=
    "🧹 *Solicitudes* — comandos:\n• `/solicitar_borrado <hechoId> | <motivo>` — Crea una solicitud\n• `/cambiar_solicitud <solicitudId> | <estado>` — Cambia el estado\n"

  /** `/todas`: every command. */
  const TodasText: string :=
    "📚 *Todos los comandos:*\n• `/coleccion <nombre>`\n• `/hecho <id>`\n• `/agregar_hecho <coleccion> | <titulo> | <descripcion>`\n• `/agregar_pdi <hechoId> | <urlImagen>`\n• `/solicitar_borrado <hechoId> | <motivo>`\n• `/cambiar_solicitud <solicitudId> | <estado>`\n"

  const NotUnderstoodText: string := "🤔 No entendí ese comando. Probá `/start` para ver el menú."

  // ---------------------------------------------------------------- routing

  /** What the trimmed text asks for. Menus carry their section, the two lookups
      their trimmed argument, the four creations their raw argument text. */
  datatype Command =
    | Menu(section: Section)
    | ListarColeccion(nombre: string)
    | VerHecho(hechoId: string)
    | Create(creation: Creation, args: string)
    | Unrecognized

  /** The six menus, one per section of the bot. */
  datatype Section = StartMenu | AgregadorMenu | FuenteMenu | PdiMenu | SolicitudMenu | TodasMenu

  function MenuText(s: Section): string
  {
    match s
    case StartMenu => StartText
    case AgregadorMenu => AgregadorText
    case FuenteMenu => FuenteText
    case PdiMenu => PdiText
    case SolicitudMenu => SolicitudText
    case TodasMenu => TodasText
  }

  /** The four commands that take '|'-separated fields. */
  datatype Creation = AgregarHecho | AgregarPdi | SolicitarBorrado | CambiarSolicitud

  /** How many fields each of them needs at least. */
  function Arity(c: Creation): nat
  {
    if c == AgregarHecho then 3 else 2
  }

  /** The tests in the order the source makes them. Menu keywords match bare,
      command keywords need a space after them. */
  const Prefixes: seq<string> := [
    "/start", "/agregador", "/fuente", "/pdi", "/solicitud", "/todas",
    "/coleccion ", "/hecho ", "/agregar_hecho ", "/agregar_pdi ",
    "/solicitar_borrado ", "/cambiar_solicitud "]

  /** The position of the first prefix, from `i` on, that `txt` starts with;
      |Prefixes| when there is none. */
  function FirstMatch(txt: string, i: nat): (k: nat)
    requires i <= |Prefixes|
    ensures i <= k <= |Prefixes|
    ensures k < |Prefixes| ==> StartsWith(txt, Prefixes[k])
    ensures forall j :: i <= j < k ==> !StartsWith(txt, Prefixes[j])
    decreases |Prefixes| - i
  {
    if i == |Prefixes| || StartsWith(txt, Prefixes[i]) then i else FirstMatch(txt, i + 1)
  }

  /** The first test that matches decides; the command keywords then drop the
      keyword and the whitespace after it. */
  function Route(txt: string): Command
  {
    var k := FirstMatch(txt, 0);
    if k == 0 then Menu(StartMenu)
    else if k == 1 then Menu(AgregadorMenu)
    else if k == 2 then Menu(FuenteMenu)
    else if k == 3 then Menu(PdiMenu)
    else if k == 4 then Menu(SolicitudMenu)
    else if k == 5 then Menu(TodasMenu)
    else if k == 6 then ListarColeccion(Trim(AfterKeyword(txt, Prefixes[6])))
    else if k == 7 then VerHecho(Trim(AfterKeyword(txt, Prefixes[7])))
    else if k == 8 then Create(AgregarHecho, AfterKeyword(txt, Prefixes[8]))
    else if k == 9 then Create(AgregarPdi, AfterKeyword(txt, Prefixes[9]))
    else if k == 10 then Create(SolicitarBorrado, AfterKeyword(txt, Prefixes[10]))
    else if k == 11 then Create(CambiarSolicitud, AfterKeyword(txt, Prefixes[11]))
    else Unrecognized
  }

  /** A handler together with the arguments it is called with. */
  datatype Handler =
    | Listar(coleccion: string)
    | Ver(hechoId: string)
    | NuevoHecho(coleccion: string, titulo: string, descripcion: string)
    | NuevoPdi(hechoId: string, imageUrl: string)
    | NuevaSolicitud(hechoId: string, motivo: string)
    | CambioEstado(solicitudId: string, estado: string)

  /** What a routed command leads to before any backend is involved: a menu, the
      "not understood" hint, a handler call, or the usage error of a short
      argument list. */
  datatype Action = ShowMenu(section: Section) | ShowHint | Invoke(handler: Handler) | Reject(failure: Failure)

  /** The handler call of a creation, with its leading fields in order; the
      fields beyond its arity are ignored. */
  function Bind(c: Creation, parts: seq<string>): Handler
    requires |parts| >= Arity(c)
  {
    match c
    case AgregarHecho => NuevoHecho(parts[0], parts[1], parts[2])
    case AgregarPdi => NuevoPdi(parts[0], parts[1])
    case SolicitarBorrado => NuevaSolicitud(parts[0], parts[1])
    case CambiarSolicitud => CambioEstado(parts[0], parts[1])
  }

  /** A creation splits its argument text first; a short list throws before
      any call. */
  function Plan(cmd: Command): Action
  {
    match cmd
    case Menu(section) => ShowMenu(section)
    case ListarColeccion(nombre) => Invoke(Listar(nombre))
    case VerHecho(hechoId) => Invoke(Ver(hechoId))
    case Create(c, args) =>
      var p := SplitPipe(args, Arity(c));
      if p.Failed? then Reject(p.failure) else Invoke(Bind(c, p.value))
    case Unrecognized => ShowHint
  }

  /** Calls the handler, which talks to the backends. */
  function Execute(clients: Clients, backend: Backend, chatId: int, h: Handler): Run
  {
    match h
    case Listar(n) => CmdListarHechosDeColeccion(clients, backend, chatId, n)
    case Ver(id) => CmdVerHecho(clients, backend, chatId, id)
    case NuevoHecho(c, t, d) => CmdAgregarHecho(clients, backend, chatId, c, t, d)
    case NuevoPdi(id, url) => CmdAgregarPdi(clients, backend, chatId, id, url)
    case NuevaSolicitud(id, m) => CmdSolicitarBorrado(clients, backend, chatId, id, m)
    case CambioEstado(id, e) => CmdCambiarSolicitud(clients, backend, chatId, id, e)
  }

  /** What the text of a message asks for, from the trimmed text alone. */
  function Decide(text: string): Action
  {
    Plan(Route(Trim(text)))
  }

  // ---------------------------------------------------------------- exceptions

  const HttpPrefix: string := "\U{26A0}\U{FE0F} *HTTP "
  const UsagePrefix: string := "\U{26A0}\U{FE0F} *Uso inválido:* "
  const ErrorPrefix: string := "❌ *Error:* "

  /** The three `catch` clauses: status and body, the usage message, or the
      exception's message (null printed as "null"). */
  function FailureText(f: Failure): string
  {
    match f
    case HttpStatus(s, b) => HttpPrefix + IntToString(s) + "*\n" + "```" + b + "```"
    case IllegalArgument(m) => UsagePrefix + m
    case OtherException(m) => ErrorPrefix + ValueOf(m)
  }

  /** The effects of a handler run, with the reply the `catch` adds after a throw. */
  function Outcome(chatId: int, run: Run): seq<Effect>
  {
    match run
    case Done(es) => es
    case Threw(es, f) => es + [Reply(chatId, FailureText(f))]
  }

  /** Everything one decided action puts in the chat: a menu or the hint as is; a
      usage error, or the handler's run, through the `catch` clauses. */
  function Respond(clients: Clients, backend: Backend, chatId: int, action: Action): seq<Effect>
  {
    match action
    case ShowMenu(section) => [Reply(chatId, MenuText(section))]
    case ShowHint => [Reply(chatId, NotUnderstoodText)]
    case Reject(f) => Outcome(chatId, Threw([], f))
    case Invoke(h) => Outcome(chatId, Execute(clients, backend, chatId, h))
  }

  /** `onUpdateReceived`: nothing without a message or a text. */
  function OnUpdateReceived(clients: Clients, backend: Backend, update: Update): seq<Effect>
  {
    if update.message.None? || update.message.value.text.None? then []
    else
      var chatId := update.message.value.chatId;
      Respond(clients, backend, chatId, Decide(update.message.value.text.value))
  }
}
