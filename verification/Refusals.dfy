/** Which error a write answers, in the order the checks are made; nothing is written. */
module Refusals {
  import opened Common
  import opened Json
  import opened Paths
  import opened Project
  import opened TicketIds
  import opened TicketJson
  import opened Manifest
  import opened WriteRender
  import opened AtomicWrite
  import opened RealWriter
  import opened WriterLaws
  import opened CreateLaws
  import opened PlanLaws
  import RunStates

  function Refused(disk: Disk, error: WriteError): Outcome { Outcome(disk, Fail(error)) }

  /** The manifest read from the disk has an entry with this id. */
  ghost predicate IsListed(document: Document, id: string) {
    exists i :: 0 <= i < |document.tickets| && Get(document.tickets[i], "id") == Some(Str(id))
  }

  lemma ListedIsFound(document: Document, id: string)
    ensures IsListed(document, id) <==> FindEntry(document.tickets, id).Some?
  {
  }

  /** Why a create is refused. */
  ghost function CreateError(c: Codec, p: Project, disk: Disk, d: Draft): Option<WriteError> {
    if !MatchesIdPattern(d.id) || d.id == "." || d.id == ".." then Some(PathTraversal)
    else match LoadManifest(c, disk, p.Manifest())
      case Fail(_) => Some(MalformedManifest)
      case Ok(document) =>
        if IsListed(document, d.id) then Some(TicketAlreadyExists)
        else if !IsStorable(d.edit.fields) then Some(TicketInvalid)
        else None
  }

  /** A create is refused for the first of these, and otherwise planned. */
  lemma CreateIsRefused(c: Codec, p: Project, disk: Disk, d: Draft)
    requires IsDiscovered(p)
    ensures
      match CreateError(c, p, disk, d)
      case Some(error) => CreateOutcome(c, p, disk, d) == Refused(disk, error)
      case None => RenderCreate(c, p, disk, d).Ok?
  {
    match LoadManifest(c, disk, p.Manifest())
    case Fail(_) =>
      if IsSafeSegment(d.id) {
        FlatResolves(c, p, d.id);
      }
    case Ok(document) =>
      if IsSafeSegment(d.id) {
        ListedIsFound(document, d.id);
        CreatePlanOf(c, p, disk, d, document);
        RenderReadsBack(d.id, d.edit.fields);
      }
  }

  /** Why an edit or a delete is refused before it looks at the entry. */
  ghost function EarlyError(c: Codec, p: Project, disk: Disk, id: string, allowed: bool): Option<WriteError> {
    if !allowed then Some(TicketNotMutable)
    else if !MatchesIdPattern(id) then Some(PathTraversal)
    else match LoadManifest(c, disk, p.Manifest())
      case Fail(_) => Some(MalformedManifest)
      case Ok(document) => if IsListed(document, id) then None else Some(UnknownTicket)
  }

  lemma EditIsRefusedEarly(c: Codec, p: Project, disk: Disk, state: RunStates.RunState, id: string, e: Edit)
    ensures
      var early := EarlyError(c, p, disk, id, state == RunStates.Todo || state == RunStates.Unknown);
      early.Some? ==> EditOutcome(c, p, disk, state, id, e) == Refused(disk, early.value)
  {
    if LoadManifest(c, disk, p.Manifest()).Ok? {
      ListedIsFound(LoadManifest(c, disk, p.Manifest()).value, id);
    }
  }

  lemma DeleteIsRefusedEarly(c: Codec, p: Project, disk: Disk, state: RunStates.RunState, id: string)
    ensures
      var early := EarlyError(c, p, disk, id,
                              state == RunStates.Todo || state == RunStates.Unknown || state == RunStates.Absent);
      early.Some? ==> DeleteOutcome(c, p, disk, state, id) == Refused(disk, early.value)
  {
    if LoadManifest(c, disk, p.Manifest()).Ok? {
      ListedIsFound(LoadManifest(c, disk, p.Manifest()).value, id);
    }
  }

  /** Why an edit of an entry is not planned, given where the entry says its file is. */
  ghost function EntryError(disk: Disk, path: Option<Path>, e: Edit): Option<WriteError> {
    if path.None? then Some(PathTraversal)
    else if SuffixOf(path.value) == ".md" then Some(TicketFormatRetired)
    else if SuffixOf(path.value) != ".json" then Some(TicketFormatUnsupported)
    else if Opened(disk, path.value) == Some(Unreadable) then Some(TicketFileUnreadable)
    else if !IsStorable(e.fields) then Some(TicketInvalid)
    else None
  }

  lemma EditIsPlanned(c: Codec, p: Project, disk: Disk, id: string, e: Edit, document: Document, i: nat)
    requires MatchesIdPattern(id) && LoadManifest(c, disk, p.Manifest()) == Ok(document)
    requires i < |document.tickets| && Get(document.tickets[i], "id") == Some(Str(id))
    ensures
      var path, plan := EntryContentPath(c, p, document.tickets[i], id), RenderEdit(c, p, disk, id, e);
      match EntryError(disk, path, e)
      case Some(error) => plan == Fail(error)
      case None => plan.Ok? && |plan.value| > 1 && plan.value[1].path == path.value
  {
    FindEntryIs(document.tickets, id, i);
    RenderReadsBack(id, e.fields);
  }

  lemma UnsafeIsRefused(c: Codec, p: Project, disk: Disk, state: RunStates.RunState, id: string, e: Edit)
    requires state == RunStates.Todo || state == RunStates.Unknown
    ensures
      match RenderEdit(c, p, disk, id, e)
      case Fail(error) => EditOutcome(c, p, disk, state, id, e) == Refused(disk, error)
      case Ok(plan) =>
        |plan| > 1 && !IsSafeTarget(p, plan[1].path) ==>
          EditOutcome(c, p, disk, state, id, e) == Refused(disk, PathTraversal)
  {
  }

  /** An edit that gets as far as the entry is refused for the first of those, then for a file
      that may not be written; and otherwise planned. */
  lemma EditIsRefused(c: Codec, p: Project, disk: Disk, state: RunStates.RunState, id: string, e: Edit,
                      document: Document, i: nat)
    requires state == RunStates.Todo || state == RunStates.Unknown
    requires MatchesIdPattern(id) && LoadManifest(c, disk, p.Manifest()) == Ok(document)
    requires i < |document.tickets| && Get(document.tickets[i], "id") == Some(Str(id))
    ensures
      var path := EntryContentPath(c, p, document.tickets[i], id);
      match EntryError(disk, path, e)
      case Some(error) => EditOutcome(c, p, disk, state, id, e) == Refused(disk, error)
      case None =>
        if IsSafeTarget(p, path.value) then RenderEdit(c, p, disk, id, e).Ok?
        else EditOutcome(c, p, disk, state, id, e) == Refused(disk, PathTraversal)
  {
    EditIsPlanned(c, p, disk, id, e, document, i);
    UnsafeIsRefused(c, p, disk, state, id, e);
  }

  /** A delete that gets as far as the entry and cannot resolve its file is refused. */
  lemma DeleteIsRefused(c: Codec, p: Project, disk: Disk, state: RunStates.RunState, id: string,
                        document: Document, i: nat)
    requires state == RunStates.Todo || state == RunStates.Unknown || state == RunStates.Absent
    requires MatchesIdPattern(id) && LoadManifest(c, disk, p.Manifest()) == Ok(document)
    requires i < |document.tickets| && Get(document.tickets[i], "id") == Some(Str(id))
    ensures
      if EntryContentPath(c, p, document.tickets[i], id).None?
      then DeleteOutcome(c, p, disk, state, id) == Refused(disk, PathTraversal)
      else RenderDelete(c, p, disk, id).Ok?
  {
    FindEntryIs(document.tickets, id, i);
  }
}
