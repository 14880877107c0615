/** The six command handlers of the bot: each validates its fields, issues one
    backend call and renders the reply (and, for a PDI, the photo). */
module Commands {
  import opened JavaLang
  import opened Effects
  import opened Helpers

  // ---------------------------------------------------------------- construction

  /** A base URL as the constructor stores it: the configured one without its
      final '/' when it ends in one, the configured one unchanged otherwise. */
  predicate NormalisedBase(configured: Option<string>, base: Option<string>)
  {
    && (configured.None? <==> base.None?)
    && (base.Some? ==> if EndsWith(configured.value, "/") then base.value + "/" == configured.value else base.value == configured.value)
    && (base.Some? && EndsWith(base.value, "/") ==> EndsWith(configured.value, "//"))
  }

  /** The constructor: one WebClient per backend, each base URL through `trimSlash`. */
  function NewClients(agregadorUrl: Option<string>, fuentesUrl: Option<string>, pdiUrl: Option<string>, solicitudesUrl: Option<string>): (c: Clients)
    ensures NormalisedBase(agregadorUrl, c.agregador) && NormalisedBase(fuentesUrl, c.fuentes)
    ensures NormalisedBase(pdiUrl, c.pdi) && NormalisedBase(solicitudesUrl, c.solicitudes)
  {
    TrimSlashNormalises(agregadorUrl);
    TrimSlashNormalises(fuentesUrl);
    TrimSlashNormalises(pdiUrl);
    TrimSlashNormalises(solicitudesUrl);
    Clients(TrimSlash(agregadorUrl), TrimSlash(fuentesUrl), TrimSlash(pdiUrl), TrimSlash(solicitudesUrl))
  }

  lemma TrimSlashNormalises(u: Option<string>)
    ensures NormalisedBase(u, TrimSlash(u))
  {
    if u.Some? && EndsWith(u.value, "/") {
      var b := TrimSlash(u).value;
      if EndsWith(b, "/") {
        assert u.value[|u.value| - 2..] == b[|b| - 1..] + "/";
      }
    }
  }

  // ---------------------------------------------------------------- 1) /coleccion

  const FolderIcon: string := "\U{1F5C2}\U{FE0F}"

  /** One line of the listing: id and escaped title. */
  function Bullet(h: Obj): string
  {
    "• `" + ValueOf(Val(Some(h), "id")) + "` · " + Safe(Val(Some(h), "titulo"))
  }

  /** The bullets of the listed facts, in order. */
  function Bullets(hechos: seq<Obj>): (lines: seq<string>)
    ensures |lines| == |hechos|
    ensures forall i :: 0 <= i < |hechos| ==> lines[i] == Bullet(hechos[i])
  {
    if hechos == [] then [] else [Bullet(hechos[0])] + Bullets(hechos[1..])
  }

  /** `Collectors.joining("\n")`. */
  function JoinLines(lines: seq<string>): string
  {
    if |lines| == 0 then ""
    else if |lines| == 1 then lines[0]
    else lines[0] + "\n" + JoinLines(lines[1..])
  }

  function Min(a: int, b: int): int
  {
    if a < b then a else b
  }

  /** The count of facts beyond the first ten, when there are any. */
  function MoreSuffix(n: nat): string
  {
    if n > 10 then "\n… y " + NatToString(n - 10) + " más" else ""
  }

  function EmptyCollectionText(coleccion: string): string
  {
    FolderIcon + " *" + coleccion + "* no tiene hechos cargados."
  }

  function ListingHeader(coleccion: string): string
  {
    FolderIcon + " *Hechos en* _" + Safe(Some(coleccion)) + "_\n"
  }

  /** The reply to a collection listing: the first ten facts, then how many more. */
  function ListingText(coleccion: string, hechos: Option<seq<Obj>>): string
  {
    if hechos.None? || |hechos.value| == 0 then EmptyCollectionText(coleccion)
    else
      var n := |hechos.value|;
      ListingHeader(coleccion) + JoinLines(Bullets(hechos.value[..Min(n, 10)])) + MoreSuffix(n)
  }

  function ListingRequest(clients: Clients, coleccion: string): Request
  {
    Request(Get, clients.agregador, "/api/coleccion/{nombre}/hechos", [coleccion], None)
  }

  /** `cmdListarHechosDeColeccion`. */
  function CmdListarHechosDeColeccion(clients: Clients, backend: Backend, chatId: int, coleccion: string): Run
  {
    if IsBlank(coleccion) then Threw([], IllegalArgument("Falta `<nombre>`"))
    else
      var req := ListingRequest(clients, coleccion);
      var a := backend.fetchList(req);
      if !a.Received? then Threw([Call(req)], CallFailure(a))
      else Done([Call(req), Reply(chatId, ListingText(coleccion, a.body))])
  }

  // ---------------------------------------------------------------- 2) /hecho

  function NotFoundText(hechoId: string): string
  {
    "🔎 No encontré el hecho `" + hechoId + "`."
  }

  /** The three lines of a fact's detail. */
  function DetailLines(titulo: Option<string>, estado: string, descripcion: string): string
  {
    "📰 *" + Safe(titulo) + "*\n"
    + "Estado: " + EstadoEmoji(Some(estado)) + " `" + estado + "`\n"
    + "Descripción: " + Safe(Some(descripcion))
  }

  /** The detail of a fact: status defaults to "activo", description to a dash. */
  function DetailText(h: Obj): string
  {
    var titulo := Val(Some(h), "titulo");
    var estado := NullTo(Val(Some(h), "estado"), "activo");
    var desc := NullTo(Val(Some(h), "descripcion"), "—");
    DetailLines(titulo, estado, desc)
  }

  function HechoRequest(clients: Clients, hechoId: string): Request
  {
    Request(Get, clients.fuentes, "/hechos/{id}", [hechoId], None)
  }

  /** `cmdVerHecho`: one GET, no image lookup. */
  function CmdVerHecho(clients: Clients, backend: Backend, chatId: int, hechoId: string): Run
  {
    if IsBlank(hechoId) then Threw([], IllegalArgument("Falta `<id>`"))
    else
      var req := HechoRequest(clients, hechoId);
      var a := backend.fetchOne(req);
      if !a.Received? then Threw([Call(req)], CallFailure(a))
      else if a.body.None? then Done([Call(req), Reply(chatId, NotFoundText(hechoId))])
      else Done([Call(req), Reply(chatId, DetailText(a.body.value))])
  }

  // ---------------------------------------------------------------- 3) /agregar_hecho

  /** The POST body, filled one `put` at a time; a blank description is left out. */
  function HechoBody(coleccion: string, titulo: string, descripcion: string): Obj
  {
    var body: Obj := map[];
    var body := body["nombre_coleccion" := coleccion];
    var body := body["titulo" := titulo];
    if !IsBlank(descripcion) then body["descripcion" := descripcion] else body
  }

  /** The id a creation reply echoes: none when the answer has no body, the body's
      id rendered by `String.valueOf` otherwise, so a body without an id gives the
      text "null". */
  function CreatedId(res: Option<Obj>): (id: Option<string>)
    ensures id.None? <==> res.None?
    ensures res.Some? && "id" !in res.value ==> id == Some("null")
    ensures res.Some? && "id" in res.value ==> id == Some(res.value["id"])
  {
    if res.Some? then Some(ValueOf(Val(res, "id"))) else None
  }

  function HechoCreatedText(res: Option<Obj>): string
  {
    var id := CreatedId(res);
    if id.Some? then "✅ *Hecho creado*: `" + id.value + "`\n_Sugerencia:_ probá `/hecho " + id.value + "`"
    else "\U{26A0}\U{FE0F} Hecho creado, pero no recibí un `id`."
  }

  const AgregarHechoUsage: string := "Usá `/agregar_hecho <coleccion> | <titulo> | <descripcion>`"

  function HechoPostRequest(clients: Clients, coleccion: string, titulo: string, descripcion: string): Request
  {
    Request(Post, clients.fuentes, "/hechos", [], Some(HechoBody(coleccion, titulo, descripcion)))
  }

  /** `cmdAgregarHecho`. */
  function CmdAgregarHecho(clients: Clients, backend: Backend, chatId: int, coleccion: string, titulo: string, descripcion: string): Run
  {
    if IsBlank(coleccion) || IsBlank(titulo) then Threw([], IllegalArgument(AgregarHechoUsage))
    else
      var req := HechoPostRequest(clients, coleccion, titulo, descripcion);
      var a := backend.fetchOne(req);
      if !a.Received? then Threw([Call(req)], CallFailure(a))
      else Done([Call(req), Reply(chatId, HechoCreatedText(a.body))])
  }

  // ---------------------------------------------------------------- 4) /agregar_pdi

  function PdiCreatedText(res: Option<Obj>): string
  {
    var id := CreatedId(res);
    if id.Some? then "\U{1F5BC}\U{FE0F} *PDI creado*: `" + id.value + "`"
    else "\U{26A0}\U{FE0F} PDI creado, pero no recibí un `id`."
  }

  const PhotoCaption: string := "\U{1F5BC}\U{FE0F} PDI"

  const AgregarPdiUsage: string := "Usá `/agregar_pdi <hechoId> | <urlImagen>`"

  function PdiRequest(clients: Clients, hechoId: string, imageUrl: string): Request
  {
    Request(Post, clients.fuentes, "/pdis", [], Some(map["hechoId" := hechoId, "contenido" := imageUrl]))
  }

  /** `cmdAgregarPdi`: the POST goes to the sources service; an http(s) URL is
      also sent back as a photo. */
  function CmdAgregarPdi(clients: Clients, backend: Backend, chatId: int, hechoId: string, imageUrl: string): Run
  {
    if IsBlank(hechoId) || IsBlank(imageUrl) then Threw([], IllegalArgument(AgregarPdiUsage))
    else
      var req := PdiRequest(clients, hechoId, imageUrl);
      var a := backend.fetchOne(req);
      if !a.Received? then Threw([Call(req)], CallFailure(a))
      else
        var replied := [Call(req), Reply(chatId, PdiCreatedText(a.body))];
        if LooksLikeUrl(Some(imageUrl)) then Done(replied + [Photo(chatId, imageUrl, PhotoCaption)])
        else Done(replied)
  }

  // ---------------------------------------------------------------- 5) /solicitar_borrado

  /** The status echoed after creating a request: the answer's, rendered by
      `String.valueOf` (so a missing one reads "null"), "pendiente" if blank or
      if there is no answer at all. */
  function EchoedEstado(res: Option<Obj>): (estado: string)
    ensures res.None? ==> estado == "pendiente"
    ensures res.Some? && "estado" !in res.value ==> estado == "null"
    ensures res.Some? && "estado" in res.value && IsBlank(res.value["estado"]) ==> estado == "pendiente"
    ensures res.Some? && "estado" in res.value && !IsBlank(res.value["estado"]) ==> estado == res.value["estado"]
  {
    assert !IsJavaWhitespace("null"[0]);
    if res.Some? then NullTo(Some(ValueOf(Val(res, "estado"))), "pendiente") else "pendiente"
  }

  function SolicitudCreatedText(res: Option<Obj>): string
  {
    var id := CreatedId(res);
    if id.Some? then "📬 *Solicitud creada*: `" + id.value + "` · estado: `" + EchoedEstado(res) + "`"
    else "\U{26A0}\U{FE0F} Solicitud creada, pero no recibí un `id`."
  }

  const SolicitarBorradoUsage: string := "Usá `/solicitar_borrado <hechoId> | <motivo>`"

  function SolicitudRequest(clients: Clients, hechoId: string, motivo: string): Request
  {
    Request(Post, clients.solicitudes, "/solicitudes", [], Some(map["hechoId" := hechoId, "motivo" := motivo, "estado" := "pendiente"]))
  }

  /** `cmdSolicitarBorrado`: the new request is always sent as "pendiente". */
  function CmdSolicitarBorrado(clients: Clients, backend: Backend, chatId: int, hechoId: string, motivo: string): Run
  {
    if IsBlank(hechoId) || IsBlank(motivo) then Threw([], IllegalArgument(SolicitarBorradoUsage))
    else
      var req := SolicitudRequest(clients, hechoId, motivo);
      var a := backend.fetchOne(req);
      if !a.Received? then Threw([Call(req)], CallFailure(a))
      else Done([Call(req), Reply(chatId, SolicitudCreatedText(a.body))])
  }

  // ---------------------------------------------------------------- 6) /cambiar_solicitud

  function EstadoChangedText(solicitudId: string, estado: string): string
  {
    "🔁 *Solicitud* `" + solicitudId + "` → estado: `" + estado + "`"
  }

  const CambiarSolicitudUsage: string := "Usá `/cambiar_solicitud <solicitudId> | <estado>`"

  function PatchRequest(clients: Clients, solicitudId: string, estado: string): Request
  {
    Request(Patch, clients.solicitudes, "/solicitudes/{id}", [solicitudId], Some(map["estado" := estado]))
  }

  /** `cmdCambiarSolicitud`: the PATCH answer is read and discarded. */
  function CmdCambiarSolicitud(clients: Clients, backend: Backend, chatId: int, solicitudId: string, estado: string): Run
  {
    if IsBlank(solicitudId) || IsBlank(estado) then Threw([], IllegalArgument(CambiarSolicitudUsage))
    else
      var req := PatchRequest(clients, solicitudId, estado);
      var a := backend.fetchOne(req);
      if !a.Received? then Threw([Call(req)], CallFailure(a))
      else Done([Call(req), Reply(chatId, EstadoChangedText(solicitudId, estado))])
  }
}
