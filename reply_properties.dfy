/** What reaches the chat: one exchange per message, failures told apart by
    their first words, and the fields of a command reaching its handler. */
module ReplyProperties {
  import opened JavaLang
  import opened Effects
  import opened Helpers
  import opened Commands
  import opened Dispatch
  import opened DispatchProperties
  import opened ArgumentProperties

  // ---------------------------------------------------------------- one exchange

  /** At most one backend call, then exactly one text to the sender's chat, then
      at most one photo, and a photo only after a call. */
  predicate OneExchange(es: seq<Effect>, chatId: int)
  {
    var k := if |es| > 0 && es[0].Call? then 1 else 0;
    && k < |es| && es[k].Reply? && es[k].chatId == chatId
    && |es| <= k + 2
    && (|es| == k + 2 ==> k == 1 && es[k + 1].Photo? && es[k + 1].chatId == chatId)
  }

  /** A handler run the catch clauses turn into one exchange: a normal end already
      is one, a throw comes at most after the call that failed. */
  predicate WellFormedRun(run: Run, chatId: int)
  {
    match run
    case Done(es) => OneExchange(es, chatId)
    case Threw(es, _) => |es| <= 1 && (|es| == 1 ==> es[0].Call?)
  }

  /** Every handler run ends in one exchange once the catch clauses have spoken;
      only a new PDI ends with three effects. */
  lemma ExecuteWellFormed(clients: Clients, backend: Backend, chatId: int, h: Handler)
    ensures WellFormedRun(Execute(clients, backend, chatId, h), chatId)
    ensures Execute(clients, backend, chatId, h).Done? && |Execute(clients, backend, chatId, h).effects| == 3 ==> h.NuevoPdi?
  {
    match h
    case Listar(n) => ListarWellFormed(clients, backend, chatId, n);
    case Ver(id) => VerHechoWellFormed(clients, backend, chatId, id);
    case NuevoHecho(c, t, d) => AgregarHechoWellFormed(clients, backend, chatId, c, t, d);
    case NuevoPdi(id, url) => AgregarPdiWellFormed(clients, backend, chatId, id, url);
    case NuevaSolicitud(id, m) => SolicitarBorradoWellFormed(clients, backend, chatId, id, m);
    case CambioEstado(id, e) => CambiarSolicitudWellFormed(clients, backend, chatId, id, e);
  }

  lemma ListarWellFormed(clients: Clients, backend: Backend, chatId: int, nombre: string)
    ensures WellFormedRun(CmdListarHechosDeColeccion(clients, backend, chatId, nombre), chatId)
    ensures |CmdListarHechosDeColeccion(clients, backend, chatId, nombre).effects| <= 2
  {
  }

  lemma VerHechoWellFormed(clients: Clients, backend: Backend, chatId: int, hechoId: string)
    ensures WellFormedRun(CmdVerHecho(clients, backend, chatId, hechoId), chatId)
    ensures |CmdVerHecho(clients, backend, chatId, hechoId).effects| <= 2
  {
  }

  lemma AgregarHechoWellFormed(clients: Clients, backend: Backend, chatId: int, coleccion: string, titulo: string, descripcion: string)
    ensures WellFormedRun(CmdAgregarHecho(clients, backend, chatId, coleccion, titulo, descripcion), chatId)
    ensures |CmdAgregarHecho(clients, backend, chatId, coleccion, titulo, descripcion).effects| <= 2
  {
  }

  lemma AgregarPdiWellFormed(clients: Clients, backend: Backend, chatId: int, hechoId: string, imageUrl: string)
    ensures WellFormedRun(CmdAgregarPdi(clients, backend, chatId, hechoId, imageUrl), chatId)
  {
  }

  lemma SolicitarBorradoWellFormed(clients: Clients, backend: Backend, chatId: int, hechoId: string, motivo: string)
    ensures WellFormedRun(CmdSolicitarBorrado(clients, backend, chatId, hechoId, motivo), chatId)
    ensures |CmdSolicitarBorrado(clients, backend, chatId, hechoId, motivo).effects| <= 2
  {
  }

  lemma CambiarSolicitudWellFormed(clients: Clients, backend: Backend, chatId: int, solicitudId: string, estado: string)
    ensures WellFormedRun(CmdCambiarSolicitud(clients, backend, chatId, solicitudId, estado), chatId)
    ensures |CmdCambiarSolicitud(clients, backend, chatId, solicitudId, estado).effects| <= 2
  {
  }

  /** The catch clauses add the failure's reply after a throw. */
  lemma OutcomeShape(chatId: int, run: Run)
    requires WellFormedRun(run, chatId)
    ensures OneExchange(Outcome(chatId, run), chatId)
    ensures |Outcome(chatId, run)| == 3 ==> run.Done?
  {
  }

  /** Whatever the action, the message gets one exchange; three effects only for a PDI. */
  lemma RespondOneExchange(clients: Clients, backend: Backend, chatId: int, action: Action)
    ensures OneExchange(Respond(clients, backend, chatId, action), chatId)
    ensures |Respond(clients, backend, chatId, action)| == 3 ==> action.Invoke? && action.handler.NuevoPdi?
  {
    if action.Invoke? {
      ExecuteWellFormed(clients, backend, chatId, action.handler);
      OutcomeShape(chatId, Execute(clients, backend, chatId, action.handler));
    }
  }

  /** Every message with a text gets exactly one answer in its own chat; an update
      without a message or a text gets nothing at all. Only a PDI sends a photo. */
  lemma OneMessageOneReply(clients: Clients, backend: Backend, update: Update)
    ensures OnUpdateReceived(clients, backend, update) == [] <==> update.message.None? || update.message.value.text.None?
    ensures update.message.Some? && update.message.value.text.Some? ==>
      OneExchange(OnUpdateReceived(clients, backend, update), update.message.value.chatId)
    ensures update.message.Some? && update.message.value.text.Some? && |OnUpdateReceived(clients, backend, update)| == 3 ==>
      Decide(update.message.value.text.value).Invoke? && Decide(update.message.value.text.value).handler.NuevoPdi?
  {
    if update.message.Some? && update.message.value.text.Some? {
      RespondOneExchange(clients, backend, update.message.value.chatId, Decide(update.message.value.text.value));
    }
  }

  // ---------------------------------------------------------------- exception texts

  /** The three catch clauses are told apart by their opening words, and each
      carries what it caught. */
  lemma FailureTextKinds(f: Failure)
    ensures StartsWith(FailureText(f), HttpPrefix) <==> f.HttpStatus?
    ensures StartsWith(FailureText(f), UsagePrefix) <==> f.IllegalArgument?
    ensures StartsWith(FailureText(f), ErrorPrefix) <==> f.OtherException?
  {
    match f
    case HttpStatus(_, _) => HttpText(f);
    case IllegalArgument(_) => UsageText(f);
    case OtherException(_) => ErrorText(f);
  }

  lemma PrefixOf(p: string, rest: string)
    ensures StartsWith(p + rest, p)
  {
    assert (p + rest)[..|p|] == p;
  }

  /** An HTTP failure shows the status and, fenced, the response body. */
  lemma HttpText(f: Failure)
    requires f.HttpStatus?
    ensures StartsWith(FailureText(f), HttpPrefix)
    ensures StartsWith(FailureText(f), HttpPrefix + IntToString(f.status) + "*\n")
    ensures !StartsWith(FailureText(f), UsagePrefix) && !StartsWith(FailureText(f), ErrorPrefix)
    ensures EndsWith(FailureText(f), "```" + f.responseBody + "```")
  {
    var tail := IntToString(f.status) + "*\n" + "```" + f.responseBody + "```";
    assert FailureText(f) == HttpPrefix + tail;
    PrefixOf(HttpPrefix, tail);
    NotPrefixAt(FailureText(f), UsagePrefix, 4);
    NotPrefixAt(FailureText(f), ErrorPrefix, 0);
    EndsWithFence(HttpPrefix + IntToString(f.status) + "*\n", "```", f.responseBody);
    StartsWithHead(HttpPrefix + IntToString(f.status) + "*\n", "```", f.responseBody);
  }

  lemma StartsWithHead(head: string, fence: string, body: string)
    ensures StartsWith(head + fence + body + fence, head)
  {
    var t := fence + body + fence;
    assert head + fence + body + fence == head + t;
    assert (head + t)[..|head|] == head;
  }

  lemma EndsWithFence(head: string, fence: string, body: string)
    ensures EndsWith(head + fence + body + fence, fence + body + fence)
  {
    var t := fence + body + fence;
    assert head + fence + body + fence == head + t;
    assert (head + t)[|head + t| - |t|..] == t;
  }

  /** A usage failure shows the usage message after its prefix. */
  lemma UsageText(f: Failure)
    requires f.IllegalArgument?
    ensures StartsWith(FailureText(f), UsagePrefix)
    ensures !StartsWith(FailureText(f), HttpPrefix) && !StartsWith(FailureText(f), ErrorPrefix)
    ensures FailureText(f)[|UsagePrefix|..] == f.usage
  {
    PrefixOf(UsagePrefix, f.usage);
    NotPrefixAt(FailureText(f), HttpPrefix, 4);
    NotPrefixAt(FailureText(f), ErrorPrefix, 0);
  }

  /** Any other failure shows its message, or "null" when it has none. */
  lemma ErrorText(f: Failure)
    requires f.OtherException?
    ensures StartsWith(FailureText(f), ErrorPrefix)
    ensures !StartsWith(FailureText(f), HttpPrefix) && !StartsWith(FailureText(f), UsagePrefix)
    ensures FailureText(f)[|ErrorPrefix|..] == ValueOf(f.detail)
  {
    PrefixOf(ErrorPrefix, ValueOf(f.detail));
    NotPrefixAt(FailureText(f), HttpPrefix, 0);
    NotPrefixAt(FailureText(f), UsagePrefix, 0);
  }

  // ---------------------------------------------------------------- whole messages

  /** The keyword that starts each creation command. */
  function Keyword(c: Creation): string
  {
    match c
    case AgregarHecho => "/agregar_hecho"
    case AgregarPdi => "/agregar_pdi"
    case SolicitarBorrado => "/solicitar_borrado"
    case CambiarSolicitud => "/cambiar_solicitud"
  }

  /** A creation message, keyword then fields joined by '|', asks for the handler
      with the trimmed fields in order, however the fields are padded, as long as
      the last one is not blank (a blank last field is trimmed off with the
      message and then dropped by the split). */
  lemma CreationMessage(c: Creation, fields: seq<string>)
    requires |fields| >= Arity(c)
    requires forall i :: 0 <= i < |fields| ==> '|' !in fields[i]
    requires Trim(fields[|fields| - 1]) != []
    ensures Decide(Keyword(c) + " " + JoinPipes(fields)) == Invoke(Bind(c, TrimAll(fields)))
  {
    var core, pad := RightPadding(fields[|fields| - 1]);
    PaddedCreation(c, fields, core, pad);
  }

  /** The same, with the last field split into its core and the padding after it. */
  lemma PaddedCreation(c: Creation, fields: seq<string>, core: string, pad: string)
    requires |fields| >= Arity(c) && fields[|fields| - 1] == core + pad
    requires forall i :: 0 <= i < |fields| ==> '|' !in fields[i]
    requires core != [] && !IsTrimmable(core[|core| - 1])
    requires forall k :: 0 <= k < |pad| ==> IsTrimmable(pad[k])
    ensures Decide(Keyword(c) + " " + JoinPipes(fields)) == Invoke(Bind(c, TrimAll(fields)))
  {
    var tight := PaddedLastField(fields, core, pad);
    TightPadded(c, fields, tight, core, pad);
  }

  /** The same, once the fields with the padding cut off are known. */
  lemma TightPadded(c: Creation, fields: seq<string>, tight: seq<string>, core: string, pad: string)
    requires |fields| >= Arity(c) && |tight| == |fields|
    requires forall i :: 0 <= i < |tight| ==> '|' !in tight[i]
    requires tight[|tight| - 1] == core && core != [] && !IsTrimmable(core[|core| - 1])
    requires forall k :: 0 <= k < |pad| ==> IsTrimmable(pad[k])
    requires JoinPipes(fields) == JoinPipes(tight) + pad
    requires TrimAll(tight) == TrimAll(fields)
    ensures Decide(Keyword(c) + " " + JoinPipes(fields)) == Invoke(Bind(c, TrimAll(fields)))
  {
    var head := Keyword(c) + " ";
    calc {
      Decide(head + JoinPipes(fields));
      == { PaddedText(head, JoinPipes(fields), JoinPipes(tight), pad); }
      Decide(head + JoinPipes(tight) + pad);
      == { JoinedEnd(tight); PaddedMessage(c, JoinPipes(tight), pad); }
      Decide(head + JoinPipes(tight));
      == { TightCreationMessage(c, tight); }
      Invoke(Bind(c, TrimAll(tight)));
    }
  }

  /** The same, when the message does not end in padding. */
  lemma TightCreationMessage(c: Creation, fields: seq<string>)
    requires |fields| >= Arity(c)
    requires forall i :: 0 <= i < |fields| ==> '|' !in fields[i]
    requires fields[|fields| - 1] != [] && !IsTrimmable(fields[|fields| - 1][|fields[|fields| - 1]| - 1])
    ensures Decide(Keyword(c) + " " + JoinPipes(fields)) == Invoke(Bind(c, TrimAll(fields)))
  {
    CreationText(c, fields);
    CreationArguments(c, fields);
  }

  lemma PaddedText(head: string, text: string, core: string, pad: string)
    requires text == core + pad
    ensures head + text == head + core + pad
  {
  }

  /** Padding at the end of a message is trimmed off before routing. */
  lemma PaddedMessage(c: Creation, args: string, pad: string)
    requires args != [] && !IsTrimmable(args[|args| - 1])
    requires forall k :: 0 <= k < |pad| ==> IsTrimmable(pad[k])
    ensures Decide(Keyword(c) + " " + args + pad) == Decide(Keyword(c) + " " + args)
  {
    var text := Keyword(c) + " " + args;
    KeywordTextTrimmed(c, args);
    assert "" + text + pad == text + pad;
    TrimPadded("", text, pad);
  }

  /** The trimmed message is routed to the creation with the whitespace run gone. */
  lemma CreationText(c: Creation, fields: seq<string>)
    requires |fields| >= 1
    requires fields[|fields| - 1] != [] && !IsTrimmable(fields[|fields| - 1][|fields[|fields| - 1]| - 1])
    ensures Decide(Keyword(c) + " " + JoinPipes(fields)) == Plan(Create(c, DropRegexSpaces(JoinPipes(fields))))
  {
    var args := JoinPipes(fields);
    JoinPipesEnds(fields);
    assert args[|args| - 1] == fields[|fields| - 1][|fields[|fields| - 1]| - 1];
    KeywordTextTrimmed(c, args);
    RouteCreation(c, args);
    DecideTrimmed(Keyword(c) + " " + args, Create(c, DropRegexSpaces(args)));
  }

  lemma KeywordTextTrimmed(c: Creation, args: string)
    requires args != [] && !IsTrimmable(args[|args| - 1])
    ensures Trim(Keyword(c) + " " + args) == Keyword(c) + " " + args
  {
    var text := Keyword(c) + " " + args;
    assert text[|text| - 1] == args[|args| - 1];
    TrimPadded("", text, "");
    assert "" + text + "" == text;
  }

  lemma RouteCreation(c: Creation, args: string)
    ensures Route(Keyword(c) + " " + args) == Create(c, DropRegexSpaces(args))
  {
    match c
    case AgregarHecho =>
      assert Keyword(c) + " " + args == "/agregar_hecho " + args;
      AgregarHechoKeyword(args);
    case AgregarPdi =>
      assert Keyword(c) + " " + args == "/agregar_pdi " + args;
      AgregarPdiKeyword(args);
    case SolicitarBorrado =>
      assert Keyword(c) + " " + args == "/solicitar_borrado " + args;
      SolicitarBorradoKeyword(args);
    case CambiarSolicitud =>
      assert Keyword(c) + " " + args == "/cambiar_solicitud " + args;
      CambiarSolicitudKeyword(args);
  }

  lemma DecideTrimmed(text: string, cmd: Command)
    requires Trim(text) == text && Route(text) == cmd
    ensures Decide(text) == Plan(cmd)
  {
  }

  /** A creation message with a single field (no '|') is answered with the usage
      error alone: no backend is called. */
  lemma SingleFieldMessage(c: Creation, arg: string)
    requires '|' !in arg && Trim(arg) != []
    ensures Decide(Keyword(c) + " " + arg) == Reject(IllegalArgument("Se esperaban " + NatToString(Arity(c)) + " campos separados por `|`"))
  {
    var core, pad := RightPadding(arg);
    PaddedText(Keyword(c) + " ", arg, core, pad);
    TightSingleField(c, core);
    PaddedMessage(c, core, pad);
  }

  lemma TightSingleField(c: Creation, arg: string)
    requires '|' !in arg && arg != [] && !IsTrimmable(arg[|arg| - 1])
    ensures Decide(Keyword(c) + " " + arg) == Reject(IllegalArgument("Se esperaban " + NatToString(Arity(c)) + " campos separados por `|`"))
  {
    KeywordTextTrimmed(c, arg);
    RouteCreation(c, arg);
    NoBarAfterDrop(arg);
    TooFewFields(c, DropRegexSpaces(arg));
    DecideTrimmed(Keyword(c) + " " + arg, Create(c, DropRegexSpaces(arg)));
  }

  /** A rejected command is answered with the failure's text and nothing else. */
  lemma RejectedMessage(clients: Clients, backend: Backend, chatId: int, raw: string)
    requires Decide(raw).Reject?
    ensures OnUpdateReceived(clients, backend, Update(Some(Message(chatId, Some(raw))))) == [Reply(chatId, FailureText(Decide(raw).failure))]
  {
    RejectResponse(clients, backend, chatId, Decide(raw));
  }

  lemma RejectResponse(clients: Clients, backend: Backend, chatId: int, action: Action)
    requires action.Reject?
    ensures Respond(clients, backend, chatId, action) == [Reply(chatId, FailureText(action.failure))]
  {
  }
}
