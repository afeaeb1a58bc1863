/** The `.factory/run-state.json` form: one parse of the file, then a pure answer per id
    (run_state.py, `read_json_run_state` and `_resolve_json_state`). */
module RunStateJson {
  import opened Common
  import opened Json
  import opened RunStates
  import FS = FileSystem

  datatype JsonRunState = JsonRunState(
    states: map<string, RunState>,
    unrecognised: seq<string>,
    known: set<string>,
    unclassifiable: map<string, Reason>,
    readable: bool,
    unreadable: bool)

  const UNTRUSTED := JsonRunState(map[], [], {}, map[], false, false)
  const UNREAD := JsonRunState(map[], [], {}, map[], false, true)
  const NOBODY := JsonRunState(map[], [], {}, map[], true, false)

  datatype Claim = Says(state: RunState) | CannotSay(reason: Reason)

  /** What one entry of `tickets` claims. */
  function ClaimOf(entry: Value): Claim {
    match entry
    case Obj(members) =>
      (match Get(members, "status")
       case Some(Str(status)) =>
         (match FactoryStatus(status)
          case Some(state) => Says(state)
          case None => CannotSay(UnmappedStatus(status)))
       case Some(Null) => CannotSay(NoStatus)
       case None => CannotSay(NoStatus)
       case Some(_) => CannotSay(StatusNotAString))
    case _ => CannotSay(EntryNotAnObject)
  }

  /** The parse after one more entry. */
  function Record(r: JsonRunState, id: string, entry: Value): JsonRunState {
    var seen := r.(known := r.known + {id});
    match ClaimOf(entry)
    case Says(state) => seen.(states := r.states[id := state])
    case CannotSay(UnmappedStatus(status)) =>
      seen.(unclassifiable := r.unclassifiable[id := UnmappedStatus(status)],
            unrecognised := if status in r.unrecognised then r.unrecognised
                            else r.unrecognised + [status])
    case CannotSay(reason) => seen.(unclassifiable := r.unclassifiable[id := reason])
  }

  function ParseEntries(tickets: Dict): JsonRunState {
    if tickets == [] then NOBODY
    else
      var last := tickets[|tickets| - 1];
      Record(ParseEntries(tickets[..|tickets| - 1]), last.0, last.1)
  }

  /** The `tickets` object of a document, if it has one. */
  function TicketsOf(document: Value): Option<Dict> {
    match document
    case Obj(members) =>
      (match Get(members, "tickets")
       case Some(Obj(tickets)) => Some(tickets)
       case _ => None)
    case _ => None
  }

  function Parse(read: FS.Probe<FS.Content>): JsonRunState {
    match read
    case Absent => UNTRUSTED
    case Failed => UNREAD
    case Found(Document(document)) =>
      (match TicketsOf(document)
       case Some(tickets) => ParseEntries(tickets)
       case None => UNTRUSTED)
    case Found(_) => UNTRUSTED
  }

  method ReadJsonRunState(root: FS.Node, path: FS.Path) returns (parsed: JsonRunState)
    ensures parsed == Parse(FS.Read(root, path))
  {
    var read := FS.Read(root, path);
    if read.Absent? {
      return UNTRUSTED;
    }
    if read.Failed? {
      return UNREAD;
    }
    if !read.value.Document? {
      return UNTRUSTED;
    }
    var found := TicketsOf(read.value.value);
    if found.None? {
      return UNTRUSTED;
    }
    var tickets := found.value;
    var states, unrecognised, known, unclassifiable := map[], [], {}, map[];
    for i := 0 to |tickets|
      invariant JsonRunState(states, unrecognised, known, unclassifiable, true, false)
                == ParseEntries(tickets[..i])
    {
      assert tickets[..i + 1][..i] == tickets[..i];
      var (id, entry) := tickets[i];
      known := known + {id};
      if !entry.Obj? {
        unclassifiable := unclassifiable[id := EntryNotAnObject];
        continue;
      }
      var status := Get(entry.members, "status");
      if !(status.Some? && status.value.Str?) {
        unclassifiable := unclassifiable[id :=
          if status.None? || status.value.Null? then NoStatus else StatusNotAString];
        continue;
      }
      var state := FactoryStatus(status.value.s);
      if state.None? {
        if status.value.s !in unrecognised {
          unrecognised := unrecognised + [status.value.s];
        }
        unclassifiable := unclassifiable[id := UnmappedStatus(status.value.s)];
        continue;
      }
      states := states[id := state.value];
    }
    assert tickets[..|tickets|] == tickets;
    return JsonRunState(states, unrecognised, known, unclassifiable, true, false);
  }

  /** `_resolve_json_state`. */
  function ResolveJsonState(parsed: JsonRunState, id: string): RunState {
    if parsed.unreadable then Unreadable
    else if id in parsed.states then parsed.states[id]
    else if !parsed.readable || parsed.known == {} then Unknown
    else if id in parsed.known then Unreadable
    else Absent
  }

  function ResolveJson(parsed: JsonRunState, id: string): Outcome {
    Resolved(ResolveJsonState(parsed, id),
             if id in parsed.unclassifiable then Some(parsed.unclassifiable[id]) else None)
  }

  /** Every status the document names that the table does not map, in document order. */
  function UnmappedStatuses(tickets: Dict): seq<string> {
    if tickets == [] then []
    else
      var before := UnmappedStatuses(tickets[..|tickets| - 1]);
      match ClaimOf(tickets[|tickets| - 1].1)
      case CannotSay(UnmappedStatus(status)) => before + [status]
      case _ => before
  }

  /** `r` records the claim of this entry. */
  ghost predicate Records(r: JsonRunState, id: string, entry: Value) {
    match ClaimOf(entry)
    case Says(state) => id in r.states && r.states[id] == state
    case CannotSay(reason) => id in r.unclassifiable && r.unclassifiable[id] == reason
  }

  ghost predicate Splits(r: JsonRunState) {
    && r.states.Keys !! r.unclassifiable.Keys
    && r.states.Keys + r.unclassifiable.Keys == r.known
  }

  function Ids(tickets: Dict): set<string> {
    set i | 0 <= i < |tickets| :: tickets[i].0
  }

  /** The parse splits the ids of any `tickets` object in two: each id is either mapped to
      a state or recorded with what could not be classified, never both. */
  lemma {:induction false} ParseSplitsIds(tickets: Dict)
    requires IsDict(tickets)
    ensures ParseEntries(tickets).readable && !ParseEntries(tickets).unreadable
    ensures Splits(ParseEntries(tickets))
    ensures ParseEntries(tickets).known == Ids(tickets)
  {
    if tickets != [] {
      var n := |tickets| - 1;
      ParseSplitsIds(tickets[..n]);
      IdsExtend(tickets);
      RecordOne(ParseEntries(tickets[..n]), tickets[n].0, tickets[n].1);
    }
  }

  lemma IdsExtend(tickets: Dict)
    requires IsDict(tickets) && tickets != []
    ensures IsDict(tickets[..|tickets| - 1])
    ensures Ids(tickets) == Ids(tickets[..|tickets| - 1]) + {tickets[|tickets| - 1].0}
    ensures tickets[|tickets| - 1].0 !in Ids(tickets[..|tickets| - 1])
  {
    var prefix := tickets[..|tickets| - 1];
    forall i | 0 <= i < |prefix| ensures tickets[i].0 in Ids(prefix) { assert prefix[i] == tickets[i]; }
  }

  /** Every entry's own claim is what the parse holds for its id. */
  lemma {:induction false} ParseRecordsClaims(tickets: Dict, i: nat)
    requires IsDict(tickets) && i < |tickets|
    ensures Records(ParseEntries(tickets), tickets[i].0, tickets[i].1)
  {
    var n := |tickets| - 1;
    IdsExtend(tickets);
    ParseSplitsIds(tickets[..n]);
    if i == n {
      RecordOne(ParseEntries(tickets[..n]), tickets[n].0, tickets[n].1);
    } else {
      ParseRecordsClaims(tickets[..n], i);
      RecordsSurvives(ParseEntries(tickets[..n]), tickets[n].0, tickets[n].1, tickets[i].0, tickets[i].1);
    }
  }

  /** The unmapped statuses are collected once each, in first-seen order. */
  lemma {:induction false} ParseCollectsUnmapped(tickets: Dict)
    ensures ParseEntries(tickets).unrecognised == Dedup(UnmappedStatuses(tickets))
  {
    if tickets != [] {
      ParseCollectsUnmapped(tickets[..|tickets| - 1]);
      FirstSeenExtends(tickets);
    }
  }

  lemma RecordOne(r: JsonRunState, id: string, entry: Value)
    requires Splits(r) && id !in r.known
    ensures Splits(Record(r, id, entry))
    ensures Records(Record(r, id, entry), id, entry)
  {
  }

  lemma RecordsSurvives(r: JsonRunState, id: string, entry: Value, other: string, said: Value)
    requires Records(r, other, said) && id != other
    ensures Records(Record(r, id, entry), other, said)
  {
  }

  lemma FirstSeenExtends(tickets: Dict)
    requires tickets != []
    requires ParseEntries(tickets[..|tickets| - 1]).unrecognised
             == Dedup(UnmappedStatuses(tickets[..|tickets| - 1]))
    ensures ParseEntries(tickets).unrecognised == Dedup(UnmappedStatuses(tickets))
  {
    var all := UnmappedStatuses(tickets);
    var before := UnmappedStatuses(tickets[..|tickets| - 1]);
    if all != before {
      assert all[..|all| - 1] == before;
    }
  }

  /** The JSON form answers from the document alone: an id's entry decides it; without one,
      only silence (nothing parsed, or nobody listed) leaves it mutable; and a reason is
      given only with a refusal. */
  lemma JsonAnswers(read: FS.Probe<FS.Content>, id: string)
    requires read.Found? && read.value.Document? && TicketsOf(read.value.value).Some?
             ==> IsDict(TicketsOf(read.value.value).value)
    ensures
      var tickets := if read.Found? && read.value.Document? then TicketsOf(read.value.value) else None;
      ResolveJson(Parse(read), id) ==
        if read.Failed? then Resolved(Unreadable, None)
        else if tickets.None? || tickets.value == [] then Resolved(Unknown, None)
        else match Get(tickets.value, id)
             case None => Resolved(Absent, None)
             case Some(entry) =>
               match ClaimOf(entry)
               case Says(state) => Resolved(state, None)
               case CannotSay(reason) => Resolved(Unreadable, Some(reason))
    ensures ResolveJson(Parse(read), id).reason.Some? ==> ResolveJson(Parse(read), id).state == Unreadable
  {
    if read.Found? && read.value.Document? && TicketsOf(read.value.value).Some? {
      var tickets := TicketsOf(read.value.value).value;
      ParseSplitsIds(tickets);
      if tickets != [] {
        assert tickets[0].0 in Ids(tickets);
        HasIs(tickets, id);
        var i := GetIsAnEntry(tickets, id);
        if Get(tickets, id).Some? {
          ParseRecordsClaims(tickets, i);
        }
      }
    }
  }

  lemma {:induction false} GetIsAnEntry(d: Dict, key: string) returns (i: nat)
    ensures Get(d, key).Some? ==> i < |d| && d[i] == (key, Get(d, key).value)
  {
    i := 0;
    if d != [] && d[0].0 != key {
      var j := GetIsAnEntry(d[1..], key);
      i := j + 1;
    }
  }
}
