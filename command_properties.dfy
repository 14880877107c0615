/** What each handler promises: validation before any call, the request it sends,
    and how the answer is rendered. */
module CommandProperties {
  import opened JavaLang
  import opened Effects
  import opened Helpers
  import opened Commands

  // ---------------------------------------------------------------- listing

  function NewlineCount(s: string): nat
  {
    multiset(s)['\n']
  }

  lemma {:induction false} EscapeKeepsNewlines(s: string)
    ensures NewlineCount(Escape(s)) == NewlineCount(s)
  {
    if s != [] {
      EscapeKeepsNewlines(s[1..]);
      assert s == [s[0]] + s[1..];
      assert multiset(Escape(s)) == multiset(EscapeChar(s[0])) + multiset(Escape(s[1..]));
    }
  }

  lemma SafeSingleLine(s: Option<string>)
    requires s.Some? ==> '\n' !in s.value
    ensures NewlineCount(Safe(s)) == 0
  {
    if s.Some? {
      SafeIsEscape(s.value);
      EscapeKeepsNewlines(s.value);
    }
  }

  /** Joining n single-line texts gives n - 1 line breaks. */
  lemma {:induction false} JoinLinesNewlines(lines: seq<string>)
    requires |lines| >= 1
    requires forall i :: 0 <= i < |lines| ==> NewlineCount(lines[i]) == 0
    ensures NewlineCount(JoinLines(lines)) == |lines| - 1
  {
    if |lines| > 1 {
      JoinLinesNewlines(lines[1..]);
    }
  }

  /** A fact whose id and title are one line each. */
  predicate OneLineFields(h: Obj)
  {
    ("id" in h ==> '\n' !in h["id"]) && ("titulo" in h ==> '\n' !in h["titulo"])
  }

  lemma BulletSingleLine(h: Obj)
    requires OneLineFields(h)
    ensures NewlineCount(Bullet(h)) == 0
  {
    SafeSingleLine(Val(Some(h), "titulo"));
  }

  lemma DigitsSingleLine(n: nat)
    ensures NewlineCount(NatToString(n)) == 0
  {
  }

  lemma HeaderSingleBreak(coleccion: string)
    requires '\n' !in coleccion
    ensures NewlineCount(ListingHeader(coleccion)) == 1
  {
    SafeSingleLine(Some(coleccion));
    var a := FolderIcon + " *Hechos en* _";
    assert '\n' !in a;
    assert ListingHeader(coleccion) == a + Safe(Some(coleccion)) + "_\n";
    assert multiset("_\n")['\n'] == 1;
  }

  lemma SuffixSingleBreak(n: nat)
    requires n > 10
    ensures NewlineCount(MoreSuffix(n)) == 1
  {
    DigitsSingleLine(n - 10);
    var a := "\n… y ";
    assert multiset(a)['\n'] == 1;
    assert '\n' !in " más";
    assert MoreSuffix(n) == a + NatToString(n - 10) + " más";
  }

  lemma BulletsBreaks(shown: seq<Obj>)
    requires |shown| >= 1
    requires forall i :: 0 <= i < |shown| ==> OneLineFields(shown[i])
    ensures NewlineCount(JoinLines(Bullets(shown))) == |shown| - 1
  {
    var lines := Bullets(shown);
    forall i | 0 <= i < |lines|
      ensures NewlineCount(lines[i]) == 0
    {
      BulletSingleLine(shown[i]);
    }
    JoinLinesNewlines(lines);
  }

  /** Up to ten facts are all shown, with nothing after them. */
  lemma ListingAllShown(coleccion: string, hechos: seq<Obj>)
    requires 0 < |hechos| <= 10
    ensures ListingText(coleccion, Some(hechos)) == ListingHeader(coleccion) + JoinLines(Bullets(hechos))
  {
    assert hechos[..|hechos|] == hechos;
  }

  /** Beyond ten, the reply is the listing of the first ten followed by a line
      counting the others; facts past the tenth never show. */
  lemma ListingTruncates(coleccion: string, hechos: seq<Obj>)
    requires |hechos| > 10
    ensures ListingText(coleccion, Some(hechos)) == ListingText(coleccion, Some(hechos[..10])) + MoreSuffix(|hechos|)
    ensures MoreSuffix(|hechos|) == "\n… y " + NatToString(|hechos| - 10) + " más"
  {
    var n := |hechos|;
    var first := hechos[..10];
    var body := ListingHeader(coleccion) + JoinLines(Bullets(first));
    assert Min(n, 10) == 10;
    assert ListingText(coleccion, Some(hechos)) == body + MoreSuffix(n);
    assert first[..Min(|first|, 10)] == first;
    assert ListingText(coleccion, Some(first)) == body;
  }

  lemma NewlineCountAppend(a: string, b: string)
    ensures NewlineCount(a + b) == NewlineCount(a) + NewlineCount(b)
  {
    assert multiset(a + b) == multiset(a) + multiset(b);
  }

  lemma ShortListingLines(coleccion: string, hechos: seq<Obj>)
    requires 0 < |hechos| <= 10 && '\n' !in coleccion
    requires forall i :: 0 <= i < |hechos| ==> OneLineFields(hechos[i])
    ensures NewlineCount(ListingText(coleccion, Some(hechos))) == |hechos|
  {
    ListingAllShown(coleccion, hechos);
    HeaderSingleBreak(coleccion);
    BulletsBreaks(hechos);
    NewlineCountAppend(ListingHeader(coleccion), JoinLines(Bullets(hechos)));
  }

  /** When ids, titles and the collection name are one line each, the listing is a
      header line, one line per shown fact (at most ten), and a last line counting
      the rest exactly when there are more than ten. */
  lemma ListingLineCount(coleccion: string, hechos: seq<Obj>)
    requires |hechos| > 0 && '\n' !in coleccion
    requires forall i :: 0 <= i < |hechos| ==> OneLineFields(hechos[i])
    ensures NewlineCount(ListingText(coleccion, Some(hechos))) == Min(|hechos|, 10) + (if |hechos| > 10 then 1 else 0)
  {
    if |hechos| <= 10 {
      ShortListingLines(coleccion, hechos);
    } else {
      ListingTruncates(coleccion, hechos);
      ShortListingLines(coleccion, hechos[..10]);
      SuffixSingleBreak(|hechos|);
      NewlineCountAppend(ListingText(coleccion, Some(hechos[..10])), MoreSuffix(|hechos|));
    }
  }

  /** No facts (or no body) reads "no tiene hechos cargados"; fifteen facts end
      with "… y 5 más". */
  lemma ListingExamples(coleccion: string, hechos: seq<Obj>)
    ensures ListingText(coleccion, None) == EmptyCollectionText(coleccion)
    ensures ListingText(coleccion, Some([])) == EmptyCollectionText(coleccion)
    ensures |hechos| == 15 ==> EndsWith(ListingText(coleccion, Some(hechos)), "\n… y 5 más")
  {
    if |hechos| == 15 {
      assert NatToString(5) == "5";
      var t := ListingText(coleccion, Some(hechos));
      var suffix := "\n… y 5 más";
      assert t == ListingHeader(coleccion) + JoinLines(Bullets(hechos[..10])) + suffix;
      assert t[|t| - |suffix|..] == suffix;
    }
  }

  /** A blank name is a usage error before any call; otherwise one GET to the
      collection's facts, whose answer is rendered or whose failure is thrown. */
  lemma ListarCalls(clients: Clients, backend: Backend, chatId: int, coleccion: string)
    ensures IsBlank(coleccion) ==> CmdListarHechosDeColeccion(clients, backend, chatId, coleccion) == Threw([], IllegalArgument("Falta `<nombre>`"))
    ensures !IsBlank(coleccion) ==>
      var req := ListingRequest(clients, coleccion);
      var run := CmdListarHechosDeColeccion(clients, backend, chatId, coleccion);
      && req.verb == Get && req.uri == "/api/coleccion/{nombre}/hechos" && req.uriVars == [coleccion]
      && (backend.fetchList(req).Received? ==> run == Done([Call(req), Reply(chatId, ListingText(coleccion, backend.fetchList(req).body))]))
      && (!backend.fetchList(req).Received? ==> run == Threw([Call(req)], CallFailure(backend.fetchList(req))))
  {
  }

  // ---------------------------------------------------------------- fact detail

  /** Exactly one call, the GET of /hechos/{id}; a missing record is a "not found"
      reply, not a failure. */
  lemma VerHechoCalls(clients: Clients, backend: Backend, chatId: int, hechoId: string)
    ensures IsBlank(hechoId) ==> CmdVerHecho(clients, backend, chatId, hechoId) == Threw([], IllegalArgument("Falta `<id>`"))
    ensures !IsBlank(hechoId) ==>
      var run := CmdVerHecho(clients, backend, chatId, hechoId);
      && |run.effects| >= 1 && run.effects[0] == Call(Request(Get, clients.fuentes, "/hechos/{id}", [hechoId], None))
      && (forall i :: 1 <= i < |run.effects| ==> !run.effects[i].Call?)
      && (backend.fetchOne(HechoRequest(clients, hechoId)) == Received(None) ==>
            run == Done([Call(HechoRequest(clients, hechoId)), Reply(chatId, NotFoundText(hechoId))]))
  {
  }

  /** A missing or blank status shows "activo", whatever the description; a
      missing or blank description shows a dash, whatever the status; a non-blank
      value is shown as given. */
  lemma DetailDefaults(h: Obj)
    ensures "estado" !in h && "descripcion" !in h ==> DetailText(h) == DetailLines(Val(Some(h), "titulo"), "activo", "—")
    ensures "estado" !in h || IsBlank(h["estado"]) ==>
      DetailText(h) == DetailLines(Val(Some(h), "titulo"), "activo", NullTo(Val(Some(h), "descripcion"), "—"))
    ensures "descripcion" !in h || IsBlank(h["descripcion"]) ==>
      DetailText(h) == DetailLines(Val(Some(h), "titulo"), NullTo(Val(Some(h), "estado"), "activo"), "—")
    ensures "estado" in h && !IsBlank(h["estado"]) ==>
      DetailText(h) == DetailLines(Val(Some(h), "titulo"), h["estado"], NullTo(Val(Some(h), "descripcion"), "—"))
    ensures "descripcion" in h && !IsBlank(h["descripcion"]) ==>
      DetailText(h) == DetailLines(Val(Some(h), "titulo"), NullTo(Val(Some(h), "estado"), "activo"), h["descripcion"])
    ensures EstadoEmoji(Some("activo")) == Green && Safe(Some("—")) == "—"
  {
    assert !IsJavaWhitespace("activo"[0]);
    assert !IsJavaWhitespace("—"[0]);
    EstadoEmojiTable("activo");
    SafeChar('—');
    assert "—" == ['—'];
  }

  // ---------------------------------------------------------------- create fact

  /** The body always names the collection and the title, and carries the
      description exactly when it is not blank. */
  lemma HechoBodyFields(coleccion: string, titulo: string, descripcion: string)
    ensures HechoBody(coleccion, titulo, descripcion).Keys
      == {"nombre_coleccion", "titulo"} + (if IsBlank(descripcion) then {} else {"descripcion"})
    ensures HechoBody(coleccion, titulo, descripcion)["nombre_coleccion"] == coleccion
    ensures HechoBody(coleccion, titulo, descripcion)["titulo"] == titulo
    ensures "descripcion" in HechoBody(coleccion, titulo, descripcion) <==> !IsBlank(descripcion)
    ensures "descripcion" in HechoBody(coleccion, titulo, descripcion) ==> HechoBody(coleccion, titulo, descripcion)["descripcion"] == descripcion
  {
  }

  /** A blank collection or title is a usage error and nothing is sent; otherwise
      the first effect is the POST of that body to /hechos. */
  lemma AgregarHechoValidates(clients: Clients, backend: Backend, chatId: int, coleccion: string, titulo: string, descripcion: string)
    ensures IsBlank(coleccion) || IsBlank(titulo) ==>
      CmdAgregarHecho(clients, backend, chatId, coleccion, titulo, descripcion) == Threw([], IllegalArgument(AgregarHechoUsage))
    ensures !IsBlank(coleccion) && !IsBlank(titulo) ==>
      var run := CmdAgregarHecho(clients, backend, chatId, coleccion, titulo, descripcion);
      && |run.effects| >= 1
      && run.effects[0] == Call(Request(Post, clients.fuentes, "/hechos", [], Some(HechoBody(coleccion, titulo, descripcion))))
  {
  }

  /** The "no id" warning appears exactly when the answer has no body; a body
      without an id is echoed as `null`. */
  lemma HechoCreatedReply(res: Option<Obj>)
    ensures HechoCreatedText(res) == "\U{26A0}\U{FE0F} Hecho creado, pero no recibí un `id`." <==> res.None?
    ensures res.Some? ==> StartsWith(HechoCreatedText(res), "✅ *Hecho creado*: `" + ValueOf(Val(res, "id")) + "`")
  {
    if res.Some? {
      var t := HechoCreatedText(res);
      var p := "✅ *Hecho creado*: `" + ValueOf(Val(res, "id")) + "`";
      assert t[..|p|] == p;
      assert t[0] == '✅';
    }
  }

  // ---------------------------------------------------------------- PDI

  /** The POST of the fact id and the URL goes to the sources service's /pdis;
      after an answer the creation reply follows, and the photo follows the reply
      exactly when the URL is http or https. */
  lemma AgregarPdiPhoto(clients: Clients, backend: Backend, chatId: int, hechoId: string, imageUrl: string)
    requires !IsBlank(hechoId) && !IsBlank(imageUrl)
    ensures var run := CmdAgregarPdi(clients, backend, chatId, hechoId, imageUrl);
      var req := PdiRequest(clients, hechoId, imageUrl);
      && req == Request(Post, clients.fuentes, "/pdis", [], Some(map["hechoId" := hechoId, "contenido" := imageUrl]))
      && |run.effects| >= 1 && run.effects[0] == Call(req)
      && (run.Done? <==> backend.fetchOne(req).Received?)
      && (run.Threw? ==> run.effects == [Call(req)])
      && (run.Done? ==> |run.effects| >= 2 && run.effects[1] == Reply(chatId, PdiCreatedText(backend.fetchOne(req).body)))
      && (run.Done? ==> (|run.effects| == 3 <==> LooksLikeUrl(Some(imageUrl))))
      && (run.Done? && |run.effects| == 3 ==> run.effects[2] == Photo(chatId, imageUrl, PhotoCaption))
  {
  }

  /** The "no id" warning appears exactly when the answer has no body; otherwise
      the reply names the id, `null` when the body has none. */
  lemma PdiCreatedReply(res: Option<Obj>)
    ensures PdiCreatedText(res) == "\U{26A0}\U{FE0F} PDI creado, pero no recibí un `id`." <==> res.None?
    ensures res.Some? ==> PdiCreatedText(res) == "\U{1F5BC}\U{FE0F} *PDI creado*: `" + ValueOf(Val(res, "id")) + "`"
  {
    if res.Some? {
      assert PdiCreatedText(res)[0] == '\U{1F5BC}';
    }
  }

  lemma AgregarPdiValidates(clients: Clients, backend: Backend, chatId: int, hechoId: string, imageUrl: string)
    requires IsBlank(hechoId) || IsBlank(imageUrl)
    ensures CmdAgregarPdi(clients, backend, chatId, hechoId, imageUrl) == Threw([], IllegalArgument(AgregarPdiUsage))
  {
  }

  // ---------------------------------------------------------------- deletion requests

  /** Whatever the motive, a new deletion request is sent as "pendiente", with the
      fact id and the motive, and nothing else. */
  lemma SolicitudAlwaysPendiente(clients: Clients, backend: Backend, chatId: int, hechoId: string, motivo: string)
    ensures IsBlank(hechoId) || IsBlank(motivo) ==>
      CmdSolicitarBorrado(clients, backend, chatId, hechoId, motivo) == Threw([], IllegalArgument(SolicitarBorradoUsage))
    ensures !IsBlank(hechoId) && !IsBlank(motivo) ==>
      var run := CmdSolicitarBorrado(clients, backend, chatId, hechoId, motivo);
      && |run.effects| >= 1 && run.effects[0].Call?
      && run.effects[0].request.uri == "/solicitudes" && run.effects[0].request.verb == Post
      && run.effects[0].request.body.Some?
      && run.effects[0].request.body.value.Keys == {"hechoId", "motivo", "estado"}
      && run.effects[0].request.body.value["estado"] == "pendiente"
      && run.effects[0].request.body.value["hechoId"] == hechoId
      && run.effects[0].request.body.value["motivo"] == motivo
  {
  }

  /** The "no id" warning appears exactly when the answer has no body; otherwise
      the reply echoes the id and the answered status; a missing status reads
      `null`. */
  lemma SolicitudCreatedReply(res: Option<Obj>, id: string)
    ensures SolicitudCreatedText(None) == "\U{26A0}\U{FE0F} Solicitud creada, pero no recibí un `id`."
    ensures SolicitudCreatedText(res) == "\U{26A0}\U{FE0F} Solicitud creada, pero no recibí un `id`." <==> res.None?
    ensures res.Some? ==> StartsWith(SolicitudCreatedText(res), "📬 *Solicitud creada*: `" + ValueOf(Val(res, "id")) + "`")
    ensures res.Some? ==> EndsWith(SolicitudCreatedText(res), " · estado: `" + EchoedEstado(res) + "`")
    ensures res == Some(map["id" := id]) ==> SolicitudCreatedText(res) == "📬 *Solicitud creada*: `" + id + "` · estado: `null`"
  {
    if res.Some? {
      var p := "📬 *Solicitud creada*: `" + ValueOf(Val(res, "id")) + "`";
      var q := " · estado: `" + EchoedEstado(res) + "`";
      SolicitudTextParts(res, p, q);
      BothEnds(p, q);
      if res == Some(map["id" := id]) {
        SolicitudOnlyId(id);
      }
    }
  }

  lemma SolicitudOnlyId(id: string)
    ensures SolicitudCreatedText(Some(map["id" := id])) == "📬 *Solicitud creada*: `" + id + "` · estado: `null`"
  {
    var res := Some(map["id" := id]);
    assert CreatedId(res) == Some(id);
    assert EchoedEstado(res) == "null";
  }

  lemma SolicitudTextParts(res: Option<Obj>, p: string, q: string)
    requires res.Some?
    requires p == "📬 *Solicitud creada*: `" + ValueOf(Val(res, "id")) + "`"
    requires q == " · estado: `" + EchoedEstado(res) + "`"
    ensures SolicitudCreatedText(res) == p + q
    ensures SolicitudCreatedText(res)[0] == '📬'
  {
    var id := CreatedId(res).value;
    assert id == ValueOf(Val(res, "id"));
    StatusLiteralSplit();
    Regroup("📬 *Solicitud creada*: `", id, "`", " · estado: `", EchoedEstado(res), "`");
  }

  lemma StatusLiteralSplit()
    ensures "`" + " · estado: `" == "` · estado: `"
  {
  }

  lemma Regroup(a: string, x: string, l1: string, l2: string, e: string, c: string)
    ensures a + x + (l1 + l2) + e + c == (a + x + l1) + (l2 + e + c)
  {
  }

  lemma BothEnds(p: string, q: string)
    ensures StartsWith(p + q, p) && EndsWith(p + q, q)
  {
    assert (p + q)[..|p|] == p;
    assert (p + q)[|p + q| - |q|..] == q;
  }

  /** A blank id or status is refused with the usage text before any call;
      otherwise the PATCH of {estado} to /solicitudes/{id} on the deletion-request
      client comes first, and a failed PATCH ends the run right after it. */
  lemma CambiarValidates(clients: Clients, backend: Backend, chatId: int, solicitudId: string, estado: string)
    ensures IsBlank(solicitudId) || IsBlank(estado) ==>
      CmdCambiarSolicitud(clients, backend, chatId, solicitudId, estado) == Threw([], IllegalArgument(CambiarSolicitudUsage))
    ensures !IsBlank(solicitudId) && !IsBlank(estado) ==>
      var run := CmdCambiarSolicitud(clients, backend, chatId, solicitudId, estado);
      && |run.effects| >= 1
      && run.effects[0] == Call(Request(Patch, clients.solicitudes, "/solicitudes/{id}", [solicitudId], Some(map["estado" := estado])))
      && (forall i :: 1 <= i < |run.effects| ==> !run.effects[i].Call?)
    ensures !IsBlank(solicitudId) && !IsBlank(estado) && !backend.fetchOne(PatchRequest(clients, solicitudId, estado)).Received? ==>
      CmdCambiarSolicitud(clients, backend, chatId, solicitudId, estado)
        == Threw([Call(PatchRequest(clients, solicitudId, estado))], CallFailure(backend.fetchOne(PatchRequest(clients, solicitudId, estado))))
  {
  }

  /** The confirmation is the same whatever the PATCH answered, as long as it did
      not fail, and names the id and status the user gave. */
  lemma CambiarIgnoresAnswer(clients: Clients, b1: Backend, b2: Backend, chatId: int, solicitudId: string, estado: string)
    requires !IsBlank(solicitudId) && !IsBlank(estado)
    requires b1.fetchOne(PatchRequest(clients, solicitudId, estado)).Received?
    requires b2.fetchOne(PatchRequest(clients, solicitudId, estado)).Received?
    ensures CmdCambiarSolicitud(clients, b1, chatId, solicitudId, estado) == CmdCambiarSolicitud(clients, b2, chatId, solicitudId, estado)
    ensures CmdCambiarSolicitud(clients, b1, chatId, solicitudId, estado)
      == Done([Call(Request(Patch, clients.solicitudes, "/solicitudes/{id}", [solicitudId], Some(map["estado" := estado]))),
               Reply(chatId, EstadoChangedText(solicitudId, estado))])
  {
  }
}
