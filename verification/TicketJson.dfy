/** Ticket content files: the renderer the console writes with and the reader that must
    invert it (write_render.py `_render_ticket_json`; file_adapter/ticket_json.py). */
module TicketJson {
  import opened Common
  import opened Json

  /** The five structured fields, `TicketContentFields`. */
  datatype Fields = Fields(
    context: string,
    approach: string,
    criticalFiles: seq<string>,
    interfaceData: string,
    commands: seq<string>,
    notes: Option<string>)

  predicate IsNonEmptyList(items: seq<string>) { items != [] && "" !in items }

  /** The schema's rules for what may be stored. */
  predicate IsStorable(f: Fields) {
    f.context != "" && f.approach != "" && f.interfaceData != ""
    && IsNonEmptyList(f.criticalFiles) && IsNonEmptyList(f.commands)
  }

  /** Empty notes are not written, so they read back as no notes. */
  function Normal(f: Fields): Fields {
    if f.notes == Some("") then f.(notes := None) else f
  }

  function Strings(items: seq<string>): (r: seq<Value>)
    ensures |r| == |items| && forall i :: 0 <= i < |r| ==> r[i] == Str(items[i])
  {
    seq(|items|, i requires 0 <= i < |items| => Str(items[i]))
  }

  function VerificationOf(f: Fields): Dict {
    [("commands", Arr(Strings(f.commands)))]
    + if f.notes.Some? && f.notes.value != "" then [("notes", Str(f.notes.value))] else []
  }

  /** The document `_render_ticket_json` builds, in its key order. */
  function DocumentOf(id: string, f: Fields): Dict {
    [("id", Str(id)),
     ("context", Str(f.context)),
     ("approach", Str(f.approach)),
     ("critical_files", Arr(Strings(f.criticalFiles))),
     ("interface_data", Str(f.interfaceData)),
     ("verification", Obj(VerificationOf(f)))]
  }

  // ---- Reading ------------------------------------------------------------------------

  /** `extra="forbid"`. */
  predicate OnlyKeys(d: Dict, keys: set<string>) { forall i :: 0 <= i < |d| ==> d[i].0 in keys }

  function NonEmptyString(v: Option<Value>): Option<string> {
    match v
    case Some(Str(s)) => if s == "" then None else Some(s)
    case _ => None
  }

  function NonEmptyStrings(v: Option<Value>): Option<seq<string>> {
    match v
    case Some(Arr(items)) => if items == [] then None else AllNonEmpty(items)
    case _ => None
  }

  function AllNonEmpty(items: seq<Value>): Option<seq<string>> {
    if items == [] then Some([])
    else
      var first, rest := NonEmptyString(Some(items[0])), AllNonEmpty(items[1..]);
      if first.Some? && rest.Some? then Some([first.value] + rest.value) else None
  }

  /** `notes: str | None = None`. */
  function OptionalString(v: Option<Value>): Option<Option<string>> {
    match v
    case None => Some(None)
    case Some(Null) => Some(None)
    case Some(Str(s)) => Some(Some(s))
    case _ => None
  }

  const CONTENT_KEYS: set<string> :=
    {"id", "context", "approach", "critical_files", "interface_data", "verification"}
  const VERIFICATION_KEYS: set<string> := {"commands", "notes"}

  /** `TicketVerification.model_validate`. */
  function ParseVerification(v: Option<Value>): Option<(seq<string>, Option<string>)> {
    match v
    case Some(Obj(d)) =>
      var commands, notes := NonEmptyStrings(Get(d, "commands")), OptionalString(Get(d, "notes"));
      if OnlyKeys(d, VERIFICATION_KEYS) && commands.Some? && notes.Some?
      then Some((commands.value, notes.value)) else None
    case _ => None
  }

  /** `parse_ticket_content` on the parsed document; `None` is TicketInvalid. */
  function ParseContent(id: string, v: Value): Option<Fields> {
    match v
    case Obj(d) =>
      var context, approach := NonEmptyString(Get(d, "context")), NonEmptyString(Get(d, "approach"));
      var files, data := NonEmptyStrings(Get(d, "critical_files")), NonEmptyString(Get(d, "interface_data"));
      var verification := ParseVerification(Get(d, "verification"));
      if OnlyKeys(d, CONTENT_KEYS) && NonEmptyString(Get(d, "id")) == Some(id)
         && context.Some? && approach.Some? && files.Some? && data.Some? && verification.Some?
      then Some(Fields(context.value, approach.value, files.value, data.value,
                       verification.value.0, verification.value.1))
      else None
    case _ => None
  }

  /** `_render_ticket_json`: the document, refused when its own reader would refuse it. */
  function Render(id: string, f: Fields): Option<Value> {
    var document := Obj(DocumentOf(id, f));
    if ParseContent(id, document).Some? then Some(document) else None
  }

  // ---- The two agree ------------------------------------------------------------------

  lemma {:induction false} StringsReadBack(items: seq<string>)
    ensures AllNonEmpty(Strings(items)) == if "" in items then None else Some(items)
  {
    if items != [] {
      StringsReadBack(items[1..]);
      assert Strings(items)[1..] == Strings(items[1..]);
      assert items == [items[0]] + items[1..];
    }
  }

  lemma ListReadsBack(items: seq<string>)
    ensures NonEmptyStrings(Some(Arr(Strings(items)))) == if IsNonEmptyList(items) then Some(items) else None
  {
    StringsReadBack(items);
  }

  lemma VerificationReadsBack(f: Fields)
    ensures ParseVerification(Some(Obj(VerificationOf(f)))) ==
      if IsNonEmptyList(f.commands) then Some((f.commands, Normal(f).notes)) else None
  {
    var d := VerificationOf(f);
    ListReadsBack(f.commands);
    assert Get(d, "commands") == Some(Arr(Strings(f.commands)));
    GetAt(d, 0);
    if f.notes.Some? && f.notes.value != "" {
      GetAt(d, 1);
    } else {
      HasIs(d, "notes");
    }
  }

  /** Where each key of the document is found. */
  lemma DocumentKeys(id: string, f: Fields)
    ensures HoldsFields(DocumentOf(id, f), id, f)
  {
    var d := DocumentOf(id, f);
    assert "critical_files"[0] != "interface_data"[0];
    assert IsDict(d);
    GetAt(d, 0);
    GetAt(d, 1);
    GetAt(d, 2);
    GetAt(d, 3);
    GetAt(d, 4);
    GetAt(d, 5);
  }

  ghost predicate HoldsFields(d: Dict, id: string, f: Fields) {
    && Get(d, "id") == Some(Str(id))
    && Get(d, "context") == Some(Str(f.context))
    && Get(d, "approach") == Some(Str(f.approach))
    && Get(d, "critical_files") == Some(Arr(Strings(f.criticalFiles)))
    && Get(d, "interface_data") == Some(Str(f.interfaceData))
    && Get(d, "verification") == Some(Obj(VerificationOf(f)))
    && OnlyKeys(d, CONTENT_KEYS)
  }

  lemma ParseHeldFields(d: Dict, id: string, f: Fields)
    requires id != "" && HoldsFields(d, id, f)
    ensures ParseContent(id, Obj(d)) == if IsStorable(f) then Some(Normal(f)) else None
  {
    VerificationReadsBack(f);
    ListReadsBack(f.criticalFiles);
  }

  /** Rendering succeeds exactly on storable fields, and what is rendered reads back as the
      fields, with empty notes as none. */
  lemma RenderReadsBack(id: string, f: Fields)
    requires id != ""
    ensures Render(id, f).Some? <==> IsStorable(f)
    ensures Render(id, f).Some? ==> ParseContent(id, Render(id, f).value) == Some(Normal(f))
  {
    DocumentKeys(id, f);
    ParseHeldFields(DocumentOf(id, f), id, f);
  }

  lemma {:induction false} AllNonEmptySound(items: seq<Value>)
    ensures AllNonEmpty(items).Some? ==>
      |AllNonEmpty(items).value| == |items| && "" !in AllNonEmpty(items).value
  {
    if items != [] {
      AllNonEmptySound(items[1..]);
    }
  }

  /** Whatever the reader accepts is storable and belongs to the id it was reached by, so
      rendering it again is accepted again and loses nothing but empty notes. */
  lemma ParsedContentRendersBack(id: string, v: Value)
    requires id != "" && ParseContent(id, v).Some?
    ensures
      var f := ParseContent(id, v).value;
      && IsStorable(f)
      && Render(id, f).Some?
      && ParseContent(id, Render(id, f).value) == Some(Normal(f))
  {
    var d := v.members;
    AllNonEmptySound(Get(d, "critical_files").value.items);
    AllNonEmptySound(Get(Get(d, "verification").value.members, "commands").value.items);
    RenderReadsBack(id, ParseContent(id, v).value);
  }
}
