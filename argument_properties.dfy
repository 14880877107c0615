/** How `Plan` treats the argument text of a creation command. */
module ArgumentProperties {
  import opened JavaLang
  import opened Effects
  import opened Helpers
  import opened Dispatch

  /** The creation case of `Plan`, for a given outcome of the split. */
  lemma PlanCreate(c: Creation, args: string, r: Result<seq<string>>)
    requires r == SplitPipe(args, Arity(c))
    ensures Plan(Create(c, args)) == if r.Failed? then Reject(r.failure) else Invoke(Bind(c, r.value))
  {
  }

  /** The fields typed after a creation keyword, joined by '|', reach the handler
      trimmed and in order; fields beyond the arity are ignored. */
  lemma CreationFields(c: Creation, fields: seq<string>)
    requires |fields| >= Arity(c) && fields[|fields| - 1] != ""
    requires forall i :: 0 <= i < |fields| ==> '|' !in fields[i]
    ensures Plan(Create(c, JoinPipes(fields))) == Invoke(Bind(c, TrimAll(fields)))
  {
    SplitPipeFields(fields, Arity(c));
    PlanSplit(c, JoinPipes(fields), TrimAll(fields));
  }

  lemma PlanSplit(c: Creation, args: string, parts: seq<string>)
    requires |parts| >= Arity(c) && SplitPipe(args, Arity(c)) == Ok(parts)
    ensures Plan(Create(c, args)) == Invoke(Bind(c, parts))
  {
    PlanCreate(c, args, Ok(parts));
  }

  /** The handler arguments, field by field. */
  lemma BindTrimmed(fields: seq<string>)
    requires |fields| >= 2
    ensures |fields| >= 3 ==> Bind(AgregarHecho, TrimAll(fields)) == NuevoHecho(Trim(fields[0]), Trim(fields[1]), Trim(fields[2]))
    ensures Bind(AgregarPdi, TrimAll(fields)) == NuevoPdi(Trim(fields[0]), Trim(fields[1]))
    ensures Bind(SolicitarBorrado, TrimAll(fields)) == NuevaSolicitud(Trim(fields[0]), Trim(fields[1]))
    ensures Bind(CambiarSolicitud, TrimAll(fields)) == CambioEstado(Trim(fields[0]), Trim(fields[1]))
  {
    TrimAllPieces(fields);
  }

  /** Arguments without a '|' are one field: the usage error is thrown before
      any backend is called. */
  lemma TooFewFields(c: Creation, args: string)
    requires '|' !in args
    ensures Plan(Create(c, args)) == Reject(IllegalArgument("Se esperaban " + NatToString(Arity(c)) + " campos separados por `|`"))
    ensures NatToString(Arity(c)) == (if c == AgregarHecho then "3" else "2")
  {
    SplitPipeNeedsBar(args, Arity(c));
  }

  /** What is left once the whitespace run is gone still splits into the trimmed fields. */
  lemma CreationArguments(c: Creation, fields: seq<string>)
    requires |fields| >= Arity(c)
    requires forall i :: 0 <= i < |fields| ==> '|' !in fields[i]
    requires fields[|fields| - 1] != []
    ensures Plan(Create(c, DropRegexSpaces(JoinPipes(fields)))) == Invoke(Bind(c, TrimAll(fields)))
  {
    var dropped := [DropRegexSpaces(fields[0])] + fields[1..];
    var args := DropRegexSpaces(JoinPipes(fields));
    DroppedArguments(fields, dropped);
    assert args == JoinPipes(dropped);
    SameFields(c, args, dropped, TrimAll(fields));
  }

  /** The fields once the whitespace run is gone from the first: still pipe-free,
      the same last field, joined into the dropped text, trimmed the same. */
  lemma DroppedArguments(fields: seq<string>, dropped: seq<string>)
    requires |fields| >= 2
    requires forall i :: 0 <= i < |fields| ==> '|' !in fields[i]
    requires dropped == [DropRegexSpaces(fields[0])] + fields[1..]
    ensures |dropped| == |fields| && dropped[|dropped| - 1] == fields[|fields| - 1]
    ensures forall i :: 0 <= i < |dropped| ==> '|' !in dropped[i]
    ensures DropRegexSpaces(JoinPipes(fields)) == JoinPipes(dropped)
    ensures TrimAll(dropped) == TrimAll(fields)
  {
    NoBarAfterDrop(fields[0]);
    DroppedFields(fields, DropRegexSpaces(fields[0]), dropped);
    DropFirstField(fields);
    DroppedFieldsTrim(fields);
  }

  lemma SameFields(c: Creation, args: string, dropped: seq<string>, trimmed: seq<string>)
    requires |dropped| >= Arity(c) && dropped[|dropped| - 1] != ""
    requires forall i :: 0 <= i < |dropped| ==> '|' !in dropped[i]
    requires args == JoinPipes(dropped) && trimmed == TrimAll(dropped)
    ensures |trimmed| >= Arity(c) && Plan(Create(c, args)) == Invoke(Bind(c, trimmed))
  {
    CreationFields(c, dropped);
  }

  /** Replacing the first field by a pipe-free text keeps the fields pipe-free and
      the last one as it was. */
  lemma DroppedFields(fields: seq<string>, first: string, dropped: seq<string>)
    requires |fields| >= 2
    requires forall i :: 0 <= i < |fields| ==> '|' !in fields[i]
    requires '|' !in first
    requires dropped == [first] + fields[1..]
    ensures |dropped| == |fields| && dropped[|dropped| - 1] == fields[|fields| - 1]
    ensures forall i :: 0 <= i < |dropped| ==> '|' !in dropped[i]
  {
    forall i | 0 <= i < |dropped|
      ensures '|' !in dropped[i]
    {
      if i > 0 {
        assert dropped[i] == fields[i];
      }
    }
  }

  lemma JoinPipesPrepend(a: string, rest: seq<string>)
    requires |rest| >= 1
    ensures JoinPipes([a] + rest) == a + ("|" + JoinPipes(rest))
  {
    assert ([a] + rest)[1..] == rest;
  }

  /** The whitespace after the keyword belongs to the first field only. */
  lemma DropFirstField(fields: seq<string>)
    requires |fields| >= 2
    ensures DropRegexSpaces(JoinPipes(fields)) == JoinPipes([DropRegexSpaces(fields[0])] + fields[1..])
  {
    var a, rest := fields[0], fields[1..];
    assert fields == [a] + rest;
    JoinPipesPrepend(a, rest);
    JoinPipesPrepend(DropRegexSpaces(a), rest);
    BarFirst(JoinPipes(rest));
    DropRegexSpacesAppend(a, "|" + JoinPipes(rest));
  }

  lemma BarFirst(t: string)
    ensures ("|" + t)[0] == '|' && !IsRegexSpace('|')
  {
  }

  lemma DroppedFieldsTrim(fields: seq<string>)
    requires |fields| >= 1
    ensures TrimAll([DropRegexSpaces(fields[0])] + fields[1..]) == TrimAll(fields)
  {
    TrimDropRegexSpaces(fields[0]);
  }

  lemma NoBarAfterDrop(s: string)
    requires '|' !in s
    ensures '|' !in DropRegexSpaces(s)
  {
  }

  /** Padding at the end of the last field is padding at the end of the joined text. */
  lemma {:induction false} JoinPipesPadLast(fields: seq<string>, core: string, pad: string)
    requires |fields| >= 1 && fields[|fields| - 1] == core + pad
    ensures JoinPipes(fields) == JoinPipes(fields[..|fields| - 1] + [core]) + pad
  {
    var tight := fields[..|fields| - 1] + [core];
    if |fields| > 1 {
      JoinPipesPadLast(fields[1..], core, pad);
      assert fields[1..][..|fields| - 2] + [core] == tight[1..];
      assert JoinPipes(tight) == tight[0] + "|" + JoinPipes(tight[1..]);
    }
  }

  /** Replacing the last field by one that trims the same leaves the trimmed fields alike. */
  lemma {:induction false} TrimAllLast(fields: seq<string>, last: string)
    requires |fields| >= 1 && Trim(last) == Trim(fields[|fields| - 1])
    ensures TrimAll(fields[..|fields| - 1] + [last]) == TrimAll(fields)
  {
    var tight := fields[..|fields| - 1] + [last];
    if |fields| > 1 {
      TrimAllLast(fields[1..], last);
      assert fields[1..][..|fields| - 2] + [last] == tight[1..];
    }
  }

  /** Fields whose last one is a core followed by padding, joined, are the
      fields with that last one cut back to its core, joined, then the padding;
      both trim alike. */
  lemma PaddedLastField(fields: seq<string>, core: string, pad: string) returns (tight: seq<string>)
    requires |fields| >= 1 && fields[|fields| - 1] == core + pad
    requires forall i :: 0 <= i < |fields| ==> '|' !in fields[i]
    requires core != [] && !IsTrimmable(core[|core| - 1])
    requires forall k :: 0 <= k < |pad| ==> IsTrimmable(pad[k])
    ensures |tight| == |fields|
    ensures forall i :: 0 <= i < |tight| ==> '|' !in tight[i]
    ensures tight[|tight| - 1] == core
    ensures JoinPipes(fields) == JoinPipes(tight) + pad
    ensures TrimAll(tight) == TrimAll(fields)
  {
    tight := ReplaceLast(fields, core, pad);
    TrimAllPadLast(fields, core, pad);
  }

  /** The fields with the last one cut back to its core. */
  lemma ReplaceLast(fields: seq<string>, core: string, pad: string) returns (tight: seq<string>)
    requires |fields| >= 1 && fields[|fields| - 1] == core + pad
    requires forall i :: 0 <= i < |fields| ==> '|' !in fields[i]
    ensures tight == fields[..|fields| - 1] + [core]
    ensures |tight| == |fields| && tight[|tight| - 1] == core
    ensures forall i :: 0 <= i < |tight| ==> '|' !in tight[i]
    ensures JoinPipes(fields) == JoinPipes(tight) + pad
  {
    tight := fields[..|fields| - 1] + [core];
    JoinPipesPadLast(fields, core, pad);
    LastFieldPipeFree(fields, core, pad, tight);
  }

  /** Cutting trailing padding off the last field does not change the trimmed fields. */
  lemma TrimAllPadLast(fields: seq<string>, core: string, pad: string)
    requires |fields| >= 1 && fields[|fields| - 1] == core + pad
    requires core != [] && !IsTrimmable(core[|core| - 1])
    requires forall k :: 0 <= k < |pad| ==> IsTrimmable(pad[k])
    ensures TrimAll(fields[..|fields| - 1] + [core]) == TrimAll(fields)
  {
    TrimDropTrailing(core, pad);
    TrimAllLast(fields, core);
  }

  /** Replacing the last field by a part of it keeps the fields free of '|'. */
  lemma LastFieldPipeFree(fields: seq<string>, core: string, pad: string, tight: seq<string>)
    requires |fields| >= 1 && fields[|fields| - 1] == core + pad
    requires tight == fields[..|fields| - 1] + [core]
    requires forall i :: 0 <= i < |fields| ==> '|' !in fields[i]
    ensures forall i :: 0 <= i < |tight| ==> '|' !in tight[i]
  {
    forall i | 0 <= i < |tight|
      ensures '|' !in tight[i]
    {
      if i < |fields| - 1 {
        assert tight[i] == fields[i];
      }
    }
  }

  /** Joined fields end where their last field ends. */
  lemma JoinedEnd(fields: seq<string>)
    requires |fields| >= 1
    requires fields[|fields| - 1] != [] && !IsTrimmable(fields[|fields| - 1][|fields[|fields| - 1]| - 1])
    ensures JoinPipes(fields) != [] && !IsTrimmable(JoinPipes(fields)[|JoinPipes(fields)| - 1])
  {
    JoinPipesEnds(fields);
    var joined := JoinPipes(fields);
    var last := fields[|fields| - 1];
    assert joined[|joined| - 1] == last[|last| - 1];
  }
}
