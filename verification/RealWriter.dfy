/** The production writer: gate, plan, apply, re-read (file_adapter/real_writer.py). */
module RealWriter {
  import opened Common
  import opened Json
  import opened Paths
  import opened Project
  import opened TicketIds
  import opened Manifest
  import opened TicketReader
  import opened WriteRender
  import RunStates
  import opened AtomicWrite
  import Gate = RunStateGate

  /** The disk afterwards, and what the caller gets. */
  datatype Outcome = Outcome(disk: Disk, answer: Result<Ticket, WriteError>)

  /** What `apply_changes` does when no system call fails by itself: it refuses the plan,
      stops at a change that something is in the way of, or carries it out. */
  datatype Applied = Refused | Stopped(disk: Disk) | Done(disk: Disk)

  function Apply(p: Project, disk: Disk, plan: Plan): Applied {
    var changes := Ordered(p, plan);
    if !AllSafe(p, plan) then Refused
    else match FirstObstructed(disk, changes)
      case None => Done(After(disk, changes))
      case Some(k) => Stopped(After(disk, changes[..k]))
  }

  /** `_reread`: a ticket the manifest has lost is an assertion failure there. */
  function Reread(c: Codec, p: Project, disk: Disk, id: string): Result<Ticket, WriteError> {
    match GetTicket(c, p, disk, id)
    case Fail(error) => Fail(error)
    case Ok(None) => Fail(UnknownTicket)
    case Ok(Some(ticket)) => Ok(ticket)
  }

  /** `_reread_for_delete`: a body already gone leaves the manifest stub. */
  function RereadForDelete(c: Codec, p: Project, disk: Disk, id: string): Result<Ticket, WriteError> {
    var ticket := Reread(c, p, disk, id);
    if ticket != Fail(TicketFileMissing) then ticket
    else match LoadManifest(c, disk, p.Manifest())
      case Fail(error) => Fail(error)
      case Ok(document) =>
        match FindStub(document.tickets, id)
        case Fail(error) => Fail(error)
        case Ok(None) => Fail(UnknownTicket)
        case Ok(Some(i)) => Ok(StubOf(document.tickets[i]).value)
  }

  function ApplyThenReread(c: Codec, p: Project, disk: Disk, plan: Plan, id: string): Outcome {
    match Apply(p, disk, plan)
    case Refused => Outcome(disk, Fail(PathTraversal))
    case Stopped(left) => Outcome(left, Fail(AtomicWriteFailed))
    case Done(after) => Outcome(after, Reread(c, p, after, id))
  }

  /** `create_ticket`: ungated. */
  function CreateOutcome(c: Codec, p: Project, disk: Disk, d: Draft): Outcome {
    match RenderCreate(c, p, disk, d)
    case Fail(error) => Outcome(disk, Fail(error))
    case Ok(plan) => ApplyThenReread(c, p, disk, plan, d.id)
  }

  /** `edit_ticket`, for a ticket whose run state resolved to `state`. */
  function EditOutcome(c: Codec, p: Project, disk: Disk, state: RunStates.RunState, id: string, e: Edit): Outcome {
    if state !in Gate.MUTABLE_STATES then Outcome(disk, Fail(TicketNotMutable))
    else match RenderEdit(c, p, disk, id, e)
      case Fail(error) => Outcome(disk, Fail(error))
      case Ok(plan) => ApplyThenReread(c, p, disk, plan, id)
  }

  /** `delete_ticket`: the ticket is read before it goes. */
  function DeleteOutcome(c: Codec, p: Project, disk: Disk, state: RunStates.RunState, id: string): Outcome {
    if state !in Gate.DELETABLE_STATES then Outcome(disk, Fail(TicketNotMutable))
    else match RenderDelete(c, p, disk, id)
      case Fail(error) => Outcome(disk, Fail(error))
      case Ok(plan) =>
        match RereadForDelete(c, p, disk, id)
        case Fail(error) => Outcome(disk, Fail(error))
        case Ok(ticket) =>
          match Apply(p, disk, plan)
          case Refused => Outcome(disk, Fail(PathTraversal))
          case Stopped(left) => Outcome(left, Fail(AtomicWriteFailed))
          case Done(after) => Outcome(after, Ok(ticket))
  }

  ghost predicate NeverFails(fails: nat -> bool) { forall n :: !fails(n) }

  /** One write request against the write site; the interrupted runs are the write site's. */
  method ApplyPlan(site: WriteSite, p: Project, plan: Plan, fails: nat -> bool, token: (Path, Disk) -> string)
    returns (error: Option<WriteError>)
    requires PicksFreshNames(token)
    modifies site
    ensures NeverFails(fails) ==>
      match Apply(p, old(site.files), plan)
      case Refused => error == Some(PathTraversal) && site.files == old(site.files)
      case Stopped(left) => error == Some(AtomicWriteFailed) && site.files == left
      case Done(after) => error.None? && site.files == after
    ensures forall d :: d in site.seen ==> d in old(site.seen) || IsIntermediate(old(site.files), Ordered(p, plan), d)
  {
    var r := site.ApplyChanges(p, plan, fails, token);
    if r.Fail? && r.error.IoFailed? && NeverFails(fails) {
      assert !SomeFails(fails) && !fails(site.LastCall());
      StoppedIsObstructed(old(site.files), Ordered(p, plan), r.error, site.files);
    }
    if r.Ok? {
      return None;
    }
    return Some(if r.error.Unsafe? then PathTraversal else AtomicWriteFailed);
  }

  method CreateTicket(site: WriteSite, c: Codec, p: Project, d: Draft,
                      fails: nat -> bool, token: (Path, Disk) -> string)
    returns (answer: Result<Ticket, WriteError>)
    requires PicksFreshNames(token)
    modifies site
    ensures NeverFails(fails) ==> Outcome(site.files, answer) == CreateOutcome(c, p, old(site.files), d)
  {
    var plan := RenderCreate(c, p, site.files, d);
    if plan.Fail? {
      return Fail(plan.error);
    }
    var error := ApplyPlan(site, p, plan.value, fails, token);
    if error.Some? {
      return Fail(error.value);
    }
    answer := Reread(c, p, site.files, d.id);
  }

  method EditTicket(site: WriteSite, c: Codec, p: Project, state: RunStates.RunState, id: string, e: Edit,
                    fails: nat -> bool, token: (Path, Disk) -> string)
    returns (answer: Result<Ticket, WriteError>)
    requires PicksFreshNames(token)
    modifies site
    ensures NeverFails(fails) ==> Outcome(site.files, answer) == EditOutcome(c, p, old(site.files), state, id, e)
    ensures state !in Gate.MUTABLE_STATES ==> site.files == old(site.files) && site.seen == old(site.seen)
  {
    if state !in Gate.MUTABLE_STATES {
      return Fail(TicketNotMutable);
    }
    var plan := RenderEdit(c, p, site.files, id, e);
    if plan.Fail? {
      return Fail(plan.error);
    }
    var error := ApplyPlan(site, p, plan.value, fails, token);
    if error.Some? {
      return Fail(error.value);
    }
    answer := Reread(c, p, site.files, id);
  }

  method DeleteTicket(site: WriteSite, c: Codec, p: Project, state: RunStates.RunState, id: string,
                      fails: nat -> bool, token: (Path, Disk) -> string)
    returns (answer: Result<Ticket, WriteError>)
    requires PicksFreshNames(token)
    modifies site
    ensures NeverFails(fails) ==> Outcome(site.files, answer) == DeleteOutcome(c, p, old(site.files), state, id)
    ensures state !in Gate.DELETABLE_STATES ==> site.files == old(site.files) && site.seen == old(site.seen)
  {
    if state !in Gate.DELETABLE_STATES {
      return Fail(TicketNotMutable);
    }
    var plan := RenderDelete(c, p, site.files, id);
    if plan.Fail? {
      return Fail(plan.error);
    }
    answer := RereadForDelete(c, p, site.files, id);
    if answer.Fail? {
      return;
    }
    var error := ApplyPlan(site, p, plan.value, fails, token);
    if error.Some? {
      return Fail(error.value);
    }
  }
}
