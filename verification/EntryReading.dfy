/** What the readers accept, field by field: manifests, entries and content files. */
module EntryReading {
  import opened Common
  import opened Json
  import opened Paths
  import opened Project
  import opened TicketIds
  import opened TicketJson
  import opened Manifest
  import opened TicketReader
  import opened WriteRender
  import EntryLaws

  // ---- The manifest -------------------------------------------------------------------

  /** A manifest is an object whose `tickets` is a list of objects, no two with one id. */
  lemma ManifestIsAccepted(c: Codec, text: string, document: Document)
    ensures ParseManifest(c, text) == Some(document) <==>
      && c.loads(text) == Some(Obj(document.obj))
      && Get(document.obj, "tickets") == Some(Arr(Objects(document.tickets)))
      && forall i, j :: 0 <= i < j < |document.tickets| ==>
           !SameId(document.tickets[i], document.tickets[j])
  {
    if c.loads(text) == Some(Obj(document.obj)) && Get(document.obj, "tickets").Some?
       && Get(document.obj, "tickets").value.Arr? && AllObjects(Get(document.obj, "tickets").value.items) {
      var items := Get(document.obj, "tickets").value.items;
      assert Objects(Entries(items)) == items;
    }
    var tickets := document.tickets;
    forall i, j | 0 <= i < j < |tickets|
      ensures SameId(tickets[i], tickets[j]) <==>
              EntryId(tickets[i]).Some? && EntryId(tickets[i]) == EntryId(tickets[j])
    {
    }
  }

  ghost predicate SameId(a: Dict, b: Dict) {
    exists id :: Get(a, "id") == Some(Str(id)) && Get(b, "id") == Some(Str(id))
  }

  // ---- Entries ------------------------------------------------------------------------

  /** The factory's spelling wins where it names anything; the hand-written one fills in. */
  lemma DependenciesAreRead(entry: Dict, snake: seq<string>, camel: seq<string>)
    ensures Get(entry, "depends_on") == Some(Arr(Strings(snake))) && snake != [] ==> ReadDependsOn(entry) == Some(snake)
    ensures Get(entry, "depends_on") in {None, Some(Null), Some(Arr([]))} ==>
              && (Get(entry, "dependsOn") == Some(Arr(Strings(camel))) ==> ReadDependsOn(entry) == Some(camel))
              && (Get(entry, "dependsOn") in {None, Some(Null)} ==> ReadDependsOn(entry) == Some([]))
  {
    EntryLaws.AllStringsOfStrings(snake);
    EntryLaws.AllStringsOfStrings(camel);
  }

  /** Where a dependency list should be, a string counts as its characters and an object as
      its keys; `true` and a number other than zero are refused, and what is empty, zero or
      `false` names nothing. */
  lemma OddDependencies(entry: Dict, key: string, v: Value)
    requires key == "depends_on" || (key == "dependsOn" && Get(entry, "depends_on") == None)
    requires Get(entry, key) == Some(v)
    ensures v.Str? && v.s != "" ==>
              && ReadDependsOn(entry).Some? && |ReadDependsOn(entry).value| == |v.s|
              && forall i :: 0 <= i < |v.s| ==> ReadDependsOn(entry).value[i] == [v.s[i]]
    ensures v.Obj? && v.members != [] ==>
              && ReadDependsOn(entry).Some? && |ReadDependsOn(entry).value| == |v.members|
              && forall i :: 0 <= i < |v.members| ==> ReadDependsOn(entry).value[i] == v.members[i].0
    ensures v == Bool(true) || (v.Num? && v.n != 0) ==> ReadDependsOn(entry) == None
    ensures v in {Null, Bool(false), Num(0), Str(""), Arr([]), Obj([])} && key == "dependsOn" ==>
              ReadDependsOn(entry) == Some([])
  {
  }

  /** A text that may be missing. */
  ghost predicate IsText(v: Option<Value>, s: string) { v == Some(Str(s)) || (v == None && s == "") }

  ghost predicate IsOptionalText(v: Option<Value>, s: Option<string>) {
    if s.Some? then v == Some(Str(s.value)) else v == None || v == Some(Null)
  }

  /** One string counts as a list of one, and anything else that is no list as none. */
  ghost predicate IsProvided(v: Option<Value>, items: seq<string>) {
    if v.Some? && v.value.Arr? then v == Some(Arr(Strings(items)))
    else items == if v.Some? && v.value.Str? && v.value.s != "" then [v.value.s] else []
  }

  /** An entry reads as a stub exactly when each field it has is of its kind; a missing title
      or status is empty, and a missing track or milestone is none. */
  lemma StubIsRead(entry: Dict, t: Ticket)
    ensures StubOf(entry) == Some(t) <==>
      && Get(entry, "id") == Some(Str(t.id)) && MatchesIdPattern(t.id)
      && IsText(Get(entry, "title"), t.title) && IsText(Get(entry, "status"), t.status)
      && IsOptionalText(Get(entry, "track"), t.track) && IsOptionalText(Get(entry, "milestone"), t.milestone)
      && ReadDependsOn(entry) == Some(t.dependsOn) && IsProvided(Get(entry, "provides"), t.provided)
      && (Get(entry, "files") == None || exists files :: Get(entry, "files") == Some(Arr(Strings(files))))
      && t.content == None
  {
    TextIsRead(Get(entry, "title"), t.title);
    TextIsRead(Get(entry, "status"), t.status);
    OptionalTextIsRead(Get(entry, "track"), t.track);
    OptionalTextIsRead(Get(entry, "milestone"), t.milestone);
    ProvidedIsRead(Get(entry, "provides"), t.provided);
    FilesAreRead(Get(entry, "files"));
  }

  lemma TextIsRead(v: Option<Value>, s: string)
    ensures StringOr(v) == Some(s) <==> IsText(v, s)
  {
  }

  lemma OptionalTextIsRead(v: Option<Value>, s: Option<string>)
    ensures OptionalString(v) == Some(s) <==> IsOptionalText(v, s)
  {
  }

  lemma StringsHead(s: string, rest: seq<string>)
    ensures Strings([s] + rest) == [Str(s)] + Strings(rest)
  {
  }

  lemma {:induction false} AllStringsHolds(items: seq<Value>)
    ensures AllStrings(items).Some? ==> items == Strings(AllStrings(items).value)
  {
    if items != [] && AllStrings(items).Some? {
      var rest := AllStrings(items[1..]).value;
      AllStringsHolds(items[1..]);
      StringsHead(items[0].s, rest);
      assert items == [items[0]] + items[1..];
    }
  }

  lemma AllStringsIs(items: seq<Value>, texts: seq<string>)
    ensures AllStrings(items) == Some(texts) <==> items == Strings(texts)
  {
    AllStringsHolds(items);
    EntryLaws.AllStringsOfStrings(texts);
  }

  lemma ProvidedIsRead(v: Option<Value>, items: seq<string>)
    ensures ProvidedList(v) == Some(items) <==> IsProvided(v, items)
  {
    if v.Some? && v.value.Arr? {
      AllStringsIs(v.value.items, items);
    }
  }

  lemma FilesAreRead(v: Option<Value>)
    ensures IsFileList(v) <==> v == None || exists files :: v == Some(Arr(Strings(files)))
  {
    if v.Some? && v.value.Arr? {
      var read := AllStrings(v.value.items);
      if read.Some? {
        AllStringsIs(v.value.items, read.value);
      }
      forall files | v == Some(Arr(Strings(files))) ensures read.Some? {
        AllStringsIs(v.value.items, files);
      }
    }
  }

  /** A created entry, key by key, as it is written. */
  lemma CreatedEntryIsWritten(d: Draft, path: string)
    ensures DraftEntry(d, path) ==
      [("id", Str(d.id)), ("title", Str(d.edit.title)), ("status", Str("todo")),
       ("track", OrNull(d.edit.track)), ("milestone", OrNull(d.edit.milestone)),
       ("provides", Str(d.edit.provided)), ("path", Str(path)),
       ("depends_on", Arr(Strings(d.edit.dependsOn)))]
  {
    var base: Dict :=
      [("id", Str(d.id)), ("title", Str(d.edit.title)), ("status", Str("todo")),
       ("track", OrNull(d.edit.track)), ("milestone", OrNull(d.edit.milestone)),
       ("provides", Str(d.edit.provided)), ("path", Str(path))];
    NewKeyGoesLast(base, d.edit.dependsOn);
  }

  lemma NewKeyGoesLast(entry: Dict, dependsOn: seq<string>)
    requires IsDict(entry) && forall i :: 0 <= i < |entry| ==> entry[i].0 != "depends_on" && entry[i].0 != "dependsOn"
    ensures WithDependsOn(entry, dependsOn) == entry + [("depends_on", Arr(Strings(dependsOn)))]
  {
    HasIs(entry, "depends_on");
    HasIs(entry, "dependsOn");
    PopKeepsOrder(entry, "depends_on");
    PopKeepsOrder(entry, "dependsOn");
    PutKeepsOrder(entry, "depends_on", Arr(Strings(dependsOn)));
  }

  // ---- Where the content file is ------------------------------------------------------

  /** An entry's file is what its path says, taken from the root and contained there; without
      a path it is the flat Markdown file of its id. */
  lemma ContentPathIs(c: Codec, p: Project, entry: Dict, id: string, text: string)
    requires IsDiscovered(p) && IsJson(c)
    ensures !IsSafeSegment(id) ==> EntryContentPath(c, p, entry, id) == None
    ensures IsSafeSegment(id) && Get(entry, "path") in {None, Some(Null), Some(Str(""))} ==>
              EntryContentPath(c, p, entry, id) == Some(p.root + ["docs", "planning", "tickets", id + ".md"])
    ensures IsSafeSegment(id) && Get(entry, "path") == Some(Str(text)) && text != "" ==>
              EntryContentPath(c, p, entry, id) == Contain(p.root, ParsePath(text))
  {
    if IsSafeSegment(id) {
      MarkdownIsPlain(id);
      var flat := p.TicketsDir() + [id + ".md"];
      assert flat == p.root + ["docs", "planning", "tickets", id + ".md"];
      AbsoluteIsContained(p.root, flat);
    }
  }

  lemma MarkdownIsPlain(id: string)
    requires IsSafeSegment(id)
    ensures IsPlain(id + ".md")
  {
    assert forall k :: 0 <= k < |id| ==> IsIdChar(id[k]);
    assert '/' !in ".md" && |id + ".md"| > 3;
  }

  // ---- Content files ------------------------------------------------------------------

  /** A list of one or more texts, none of them empty. */
  ghost predicate IsTextList(v: Option<Value>, items: seq<string>) {
    v == Some(Arr(Strings(items))) && items != [] && forall i :: 0 <= i < |items| ==> items[i] != ""
  }

  ghost predicate IsVerification(v: Option<Value>, commands: seq<string>, notes: Option<string>) {
    && v.Some? && v.value.Obj?
    && (forall i :: 0 <= i < |v.value.members| ==>
          v.value.members[i].0 == "commands" || v.value.members[i].0 == "notes")
    && IsTextList(Get(v.value.members, "commands"), commands)
    && IsOptionalText(Get(v.value.members, "notes"), notes)
  }

  predicate IsContentKey(key: string) {
    || key == "id" || key == "context" || key == "approach" || key == "critical_files"
    || key == "interface_data" || key == "verification"
  }

  /** A content file is accepted, and holds these fields, exactly when it is an object with
      the ticket's own id, the five sections none of them empty, and nothing else in it. */
  lemma ContentIsAccepted(id: string, d: Dict, f: Fields)
    requires id != ""
    ensures ParseContent(id, Obj(d)) == Some(f) <==>
      && (forall i :: 0 <= i < |d| ==> IsContentKey(d[i].0))
      && Get(d, "id") == Some(Str(id))
      && f.context != "" && Get(d, "context") == Some(Str(f.context))
      && f.approach != "" && Get(d, "approach") == Some(Str(f.approach))
      && IsTextList(Get(d, "critical_files"), f.criticalFiles)
      && f.interfaceData != "" && Get(d, "interface_data") == Some(Str(f.interfaceData))
      && IsVerification(Get(d, "verification"), f.commands, f.notes)
  {
    NonEmptyIs(Get(d, "context"), f.context);
    NonEmptyIs(Get(d, "approach"), f.approach);
    NonEmptyIs(Get(d, "interface_data"), f.interfaceData);
    NonEmptyIs(Get(d, "id"), id);
    TextListIs(Get(d, "critical_files"), f.criticalFiles);
    VerificationIs(Get(d, "verification"), f.commands, f.notes);
    ContentKeysAre(d);
  }

  lemma ContentKeysAre(d: Dict)
    ensures OnlyKeys(d, CONTENT_KEYS) <==> forall i :: 0 <= i < |d| ==> IsContentKey(d[i].0)
  {
    forall key: string ensures key in CONTENT_KEYS <==> IsContentKey(key) {
    }
  }

  lemma NonEmptyIs(v: Option<Value>, s: string)
    ensures NonEmptyString(v) == Some(s) <==> s != "" && v == Some(Str(s))
  {
  }

  lemma {:induction false} AllNonEmptyHolds(items: seq<Value>)
    ensures AllNonEmpty(items).Some? ==> items == Strings(AllNonEmpty(items).value)
  {
    if items != [] && AllNonEmpty(items).Some? {
      var rest := AllNonEmpty(items[1..]).value;
      AllNonEmptyHolds(items[1..]);
      StringsHead(items[0].s, rest);
      assert items == [items[0]] + items[1..];
    }
  }

  lemma AllNonEmptyIs(items: seq<Value>, texts: seq<string>)
    ensures AllNonEmpty(items) == Some(texts) <==>
            items == Strings(texts) && forall i :: 0 <= i < |texts| ==> texts[i] != ""
  {
    AllNonEmptyHolds(items);
    AllNonEmptySound(items);
    StringsReadBack(texts);
  }

  lemma TextListIs(v: Option<Value>, items: seq<string>)
    ensures NonEmptyStrings(v) == Some(items) <==> IsTextList(v, items)
  {
    if v.Some? && v.value.Arr? {
      AllNonEmptyIs(v.value.items, items);
    }
  }

  lemma VerificationIs(v: Option<Value>, commands: seq<string>, notes: Option<string>)
    ensures ParseVerification(v) == Some((commands, notes)) <==> IsVerification(v, commands, notes)
  {
    if v.Some? && v.value.Obj? {
      TextListIs(Get(v.value.members, "commands"), commands);
      OptionalTextIsRead(Get(v.value.members, "notes"), notes);
      assert OnlyKeys(v.value.members, VERIFICATION_KEYS) <==>
             forall i :: 0 <= i < |v.value.members| ==>
               v.value.members[i].0 == "commands" || v.value.members[i].0 == "notes";
    }
  }

  /** A rendered content file, key by key, as it is written; empty notes are left out. */
  lemma ContentIsWritten(id: string, f: Fields)
    requires Render(id, f).Some?
    ensures Render(id, f).value == Obj(
      [("id", Str(id)), ("context", Str(f.context)), ("approach", Str(f.approach)),
       ("critical_files", Arr(Strings(f.criticalFiles))), ("interface_data", Str(f.interfaceData)),
       ("verification",
        Obj(if f.notes == None || f.notes == Some("") then [("commands", Arr(Strings(f.commands)))]
            else [("commands", Arr(Strings(f.commands))), ("notes", Str(f.notes.value))]))])
  {
    VerificationIsWritten(f);
  }

  lemma VerificationIsWritten(f: Fields)
    ensures VerificationOf(f) ==
      if f.notes == None || f.notes == Some("") then [("commands", Arr(Strings(f.commands)))]
      else [("commands", Arr(Strings(f.commands))), ("notes", Str(f.notes.value))]
  {
  }
}
