/** What `onUpdateReceived` guarantees: first-match routing, the shape of what
    one message produces, and how arguments reach the handlers. */
module DispatchProperties {
  import opened JavaLang
  import opened Effects
  import opened Helpers
  import opened Commands
  import opened Dispatch

  // ---------------------------------------------------------------- routing

  /** The first match is unique: a prefix that matches with none matching before
      it is the one that decides. */
  lemma FirstMatchIs(txt: string, k: nat)
    requires k <= |Prefixes|
    requires k < |Prefixes| ==> StartsWith(txt, Prefixes[k])
    requires forall j :: 0 <= j < k ==> !StartsWith(txt, Prefixes[j])
    ensures FirstMatch(txt, 0) == k
  {
  }

  /** A text is not understood exactly when none of the twelve prefixes matches it. */
  lemma NoPrefixUnrecognized(txt: string)
    requires forall i :: 0 <= i < |Prefixes| ==> !StartsWith(txt, Prefixes[i])
    ensures Route(txt) == Unrecognized
  {
    FirstMatchIs(txt, |Prefixes|);
  }

  lemma UnrecognizedNoPrefix(txt: string, i: nat)
    requires Route(txt) == Unrecognized && i < |Prefixes|
    ensures !StartsWith(txt, Prefixes[i])
  {
    assert FirstMatch(txt, 0) == |Prefixes|;
  }

  lemma NotPrefixAt(s: string, p: string, i: nat)
    requires i < |p| && i < |s| && s[i] != p[i]
    ensures !StartsWith(s, p)
  {
    if |p| <= |s| {
      assert s[..|p|][i] == s[i];
    }
  }

  /** The first |at| prefixes do not match `t`: each is either longer than `t`
      (at[j] < 0) or differs from it at position at[j]. */
  lemma NoneBefore(t: string, at: seq<int>)
    requires |at| <= |Prefixes|
    requires forall j :: 0 <= j < |at| ==>
      if at[j] < 0 then |t| < |Prefixes[j]|
      else at[j] < |Prefixes[j]| && at[j] < |t| && t[at[j]] != Prefixes[j][at[j]]
    ensures forall j :: 0 <= j < |at| ==> !StartsWith(t, Prefixes[j])
  {
    forall j | 0 <= j < |at|
      ensures !StartsWith(t, Prefixes[j])
    {
      if at[j] >= 0 {
        NotPrefixAt(t, Prefixes[j], at[j]);
      }
    }
  }

  /** A text that starts with the k-th keyword, and with none before it, is routed by it. */
  lemma KeywordFirst(kw: string, rest: string, k: nat, at: seq<int>)
    requires k < |Prefixes| && Prefixes[k] == kw && |at| == k
    requires forall j :: 0 <= j < k ==>
      if at[j] < 0 then |kw + rest| < |Prefixes[j]|
      else at[j] < |Prefixes[j]| && at[j] < |kw + rest| && (kw + rest)[at[j]] != Prefixes[j][at[j]]
    ensures FirstMatch(kw + rest, 0) == k
  {
    NoneBefore(kw + rest, at);
    assert (kw + rest)[..|kw|] == kw;
    FirstMatchIs(kw + rest, k);
  }

  /** A menu keyword shows its menu whatever follows it, even with no space. */
  lemma MenuKeywords(rest: string)
    ensures Route("/start" + rest) == Menu(StartMenu)
    ensures Route("/agregador" + rest) == Menu(AgregadorMenu)
    ensures Route("/fuente" + rest) == Menu(FuenteMenu)
    ensures Route("/pdi" + rest) == Menu(PdiMenu)
    ensures Route("/solicitud" + rest) == Menu(SolicitudMenu)
    ensures Route("/todas" + rest) == Menu(TodasMenu)
  {
    FirstMenuKeywords(rest);
    LastMenuKeywords(rest);
  }

  lemma FirstMenuKeywords(rest: string)
    ensures FirstMatch("/start" + rest, 0) == 0
    ensures FirstMatch("/agregador" + rest, 0) == 1
    ensures FirstMatch("/fuente" + rest, 0) == 2
  {
    KeywordFirst("/start", rest, 0, []);
    KeywordFirst("/agregador", rest, 1, [1]);
    KeywordFirst("/fuente", rest, 2, [1, 1]);
  }

  lemma LastMenuKeywords(rest: string)
    ensures FirstMatch("/pdi" + rest, 0) == 3
    ensures FirstMatch("/solicitud" + rest, 0) == 4
    ensures FirstMatch("/todas" + rest, 0) == 5
  {
    KeywordFirst("/pdi", rest, 3, [1, 1, 1]);
    KeywordFirst("/solicitud", rest, 4, [2, 1, 1, 1]);
    KeywordFirst("/todas", rest, 5, [1, 1, 1, 1, 1]);
  }

  /** `replaceFirst` removes the keyword, its space and the whitespace run after
      them. */
  lemma AfterPrefix(prefix: string, rest: string)
    ensures StartsWith(prefix + rest, prefix)
    ensures AfterKeyword(prefix + rest, prefix) == DropRegexSpaces(rest)
  {
    assert (prefix + rest)[..|prefix|] == prefix;
    assert (prefix + rest)[|prefix|..] == rest;
  }

  /** A command keyword and its space, then anything: `replaceFirst` leaves what
      follows once the whitespace run is gone. */
  lemma CommandKeyword(prefix: string, rest: string, k: nat, at: seq<int>)
    requires k < |Prefixes| && Prefixes[k] == prefix && |at| == k
    requires forall j :: 0 <= j < k ==>
      if at[j] < 0 then |prefix + rest| < |Prefixes[j]|
      else at[j] < |Prefixes[j]| && at[j] < |prefix + rest| && (prefix + rest)[at[j]] != Prefixes[j][at[j]]
    ensures FirstMatch(prefix + rest, 0) == k
    ensures AfterKeyword(prefix + rest, prefix) == DropRegexSpaces(rest)
  {
    AfterPrefix(prefix, rest);
    KeywordFirst(prefix, rest, k, at);
  }

  /** `/coleccion` receives its argument trimmed, however many spaces precede it. */
  lemma ColeccionKeyword(rest: string)
    ensures Route("/coleccion " + rest) == ListarColeccion(Trim(rest))
  {
    CommandKeyword("/coleccion ", rest, 6, [1, 1, 1, 1, 1, 1]);
    TrimDropRegexSpaces(rest);
  }

  /** `/hecho` receives its argument trimmed, however many spaces precede it. */
  lemma HechoKeyword(rest: string)
    ensures Route("/hecho " + rest) == VerHecho(Trim(rest))
  {
    CommandKeyword("/hecho ", rest, 7, [1, 1, 1, 1, 1, 1, 1]);
    TrimDropRegexSpaces(rest);
  }

  /** `/agregar_hecho` passes on its argument text without the spaces that precede it. */
  lemma AgregarHechoKeyword(rest: string)
    ensures Route("/agregar_hecho " + rest) == Create(AgregarHecho, DropRegexSpaces(rest))
  {
    CommandKeyword("/agregar_hecho ", rest, 8, [1, 7, 1, 1, 1, 1, 1, 1]);
  }

  /** `/agregar_pdi` passes on its argument text without the spaces that precede it. */
  lemma AgregarPdiKeyword(rest: string)
    ensures Route("/agregar_pdi " + rest) == Create(AgregarPdi, DropRegexSpaces(rest))
  {
    CommandKeyword("/agregar_pdi ", rest, 9, [1, 7, 1, 1, 1, 1, 1, 1, 9]);
  }

  /** `/solicitar_borrado` passes on its argument text without the spaces that precede it. */
  lemma SolicitarBorradoKeyword(rest: string)
    ensures Route("/solicitar_borrado " + rest) == Create(SolicitarBorrado, DropRegexSpaces(rest))
  {
    CommandKeyword("/solicitar_borrado ", rest, 10, [2, 1, 1, 1, 8, 1, 1, 1, 1, 1]);
  }

  /** `/cambiar_solicitud` passes on its argument text without the spaces that precede it. */
  lemma CambiarSolicitudKeyword(rest: string)
    ensures Route("/cambiar_solicitud " + rest) == Create(CambiarSolicitud, DropRegexSpaces(rest))
  {
    CommandKeyword("/cambiar_solicitud ", rest, 11, [1, 1, 1, 1, 1, 1, 2, 1, 1, 1, 1]);
  }

  /** A command keyword with nothing after it is not understood: the trimmed text
      has no space after the keyword, so the handler's own check is not reached. */
  lemma BareColeccion()
    ensures Route("/coleccion") == Unrecognized
  {
    NoneBefore("/coleccion", [1, 1, 1, 1, 1, 1, -1, 1, 1, 1, 1, 2]);
    FirstMatchIs("/coleccion", 12);
  }

  lemma BareHecho()
    ensures Route("/hecho") == Unrecognized
  {
    NoneBefore("/hecho", [1, 1, 1, 1, 1, 1, 1, -1, 1, 1, 1, 1]);
    FirstMatchIs("/hecho", 12);
  }

  lemma BareAgregarHecho()
    ensures Route("/agregar_hecho") == Unrecognized
  {
    NoneBefore("/agregar_hecho", [1, 7, 1, 1, 1, 1, 1, 1, -1, 9, 1, 1]);
    FirstMatchIs("/agregar_hecho", 12);
  }

  lemma BareAgregarPdi()
    ensures Route("/agregar_pdi") == Unrecognized
  {
    NoneBefore("/agregar_pdi", [1, 7, 1, 1, 1, 1, 1, 1, 9, -1, 1, 1]);
    FirstMatchIs("/agregar_pdi", 12);
  }

  lemma BareSolicitarBorrado()
    ensures Route("/solicitar_borrado") == Unrecognized
  {
    NoneBefore("/solicitar_borrado", [2, 1, 1, 1, 8, 1, 1, 1, 1, 1, -1, 1]);
    FirstMatchIs("/solicitar_borrado", 12);
  }

  lemma BareCambiarSolicitud()
    ensures Route("/cambiar_solicitud") == Unrecognized
  {
    NoneBefore("/cambiar_solicitud", [1, 1, 1, 1, 1, 1, 2, 1, 1, 1, 1, -1]);
    FirstMatchIs("/cambiar_solicitud", 12);
  }

  /** Whatever is not understood gets exactly the hint, and nothing is called. */
  lemma UnrecognizedReply(clients: Clients, backend: Backend, chatId: int, raw: string)
    requires Route(Trim(raw)) == Unrecognized
    ensures OnUpdateReceived(clients, backend, Update(Some(Message(chatId, Some(raw))))) == [Reply(chatId, NotUnderstoodText)]
  {
  }

  /** A routed lookup argument is never empty and never padded: the blank check of
      `cmdListarHechosDeColeccion` and `cmdVerHecho` can only fire on a name made
      of whitespace above U+0020 (such as U+3000). */
  lemma ColeccionArgumentPresent(raw: string)
    requires FirstMatch(Trim(raw), 0) == 6
    ensures var n := Trim(AfterKeyword(Trim(raw), Prefixes[6]));
      n != [] && !IsTrimmable(n[0]) && !IsTrimmable(n[|n| - 1])
  {
    LookupPrefixesEndInSpace();
    ArgumentPresent(Trim(raw), Prefixes[6], Trim(AfterKeyword(Trim(raw), Prefixes[6])));
  }

  lemma HechoArgumentPresent(raw: string)
    requires FirstMatch(Trim(raw), 0) == 7
    ensures var n := Trim(AfterKeyword(Trim(raw), Prefixes[7]));
      n != [] && !IsTrimmable(n[0]) && !IsTrimmable(n[|n| - 1])
  {
    LookupPrefixesEndInSpace();
    ArgumentPresent(Trim(raw), Prefixes[7], Trim(AfterKeyword(Trim(raw), Prefixes[7])));
  }

  lemma LookupPrefixesEndInSpace()
    ensures |Prefixes[6]| == 11 && Prefixes[6][10] == ' '
    ensures |Prefixes[7]| == 7 && Prefixes[7][6] == ' '
  {
  }

  /** After a keyword that ends in a space, a text whose last char is not trimmable
      leaves an argument that keeps that last char. */
  lemma ArgumentPresent(txt: string, prefix: string, n: string)
    requires StartsWith(txt, prefix) && |prefix| > 0 && prefix[|prefix| - 1] == ' '
    requires txt == [] || !IsTrimmable(txt[|txt| - 1])
    requires n == Trim(AfterKeyword(txt, prefix))
    ensures n != [] && !IsTrimmable(n[0]) && !IsTrimmable(n[|n| - 1])
  {
    var s := txt[|prefix|..];
    var r := AfterKeyword(txt, prefix);
    assert txt[|prefix| - 1] == ' ';
    assert |s| > 0 && s[|s| - 1] == txt[|txt| - 1];
    assert r == DropRegexSpaces(s);
    assert r != [];
    assert r[|r| - 1] == s[|s| - 1];
  }
}
