/** What an edit or a create does to a manifest entry, read back through the reader. */
module EntryLaws {
  import opened Common
  import opened Json
  import opened Paths
  import opened Project
  import opened TicketIds
  import opened TicketJson
  import opened Manifest
  import opened WriteRender

  const OWNED_KEYS: set<string> := {"title", "track", "milestone", "provides"}
  const SPELLINGS: set<string> := {"depends_on", "dependsOn"}

  lemma {:induction false} AllStringsOfStrings(items: seq<string>)
    ensures AllStrings(Strings(items)) == Some(items)
  {
    if items != [] {
      AllStringsOfStrings(items[1..]);
      assert Strings(items)[1..] == Strings(items[1..]);
      assert items == [items[0]] + items[1..];
    }
  }

  /** An entry with one dependency key reads back the list under it, even an empty one. */
  lemma OneKeyReadsBack(entry: Dict, key: string, dependsOn: seq<string>)
    requires key in SPELLINGS && Get(entry, key) == Some(Arr(Strings(dependsOn)))
    requires forall other :: other in SPELLINGS && other != key ==> !Has(entry, other)
    ensures ReadDependsOn(entry) == Some(dependsOn)
  {
    AllStringsOfStrings(dependsOn);
    assert "depends_on" in SPELLINGS && "dependsOn" in SPELLINGS;
  }

  /** Storing dependencies leaves exactly one spelling, the one the entry already used, and
      touches nothing else. */
  lemma DependsOnIsWritten(entry: Dict, dependsOn: seq<string>, other: string)
    requires IsDict(entry)
    ensures IsDict(WithDependsOn(entry, dependsOn))
    ensures Get(WithDependsOn(entry, dependsOn), other) ==
      if other == DependsOnKey(entry) then Some(Arr(Strings(dependsOn)))
      else if other in SPELLINGS then None
      else Get(entry, other)
  {
    var once := Pop(entry, "depends_on");
    var twice := Pop(once, "dependsOn");
    PopIsDict(entry, "depends_on");
    PopIsDict(once, "dependsOn");
    GetPop(entry, "depends_on", other);
    GetPop(once, "dependsOn", other);
    PutIsDict(twice, DependsOnKey(entry), Arr(Strings(dependsOn)));
    GetPut(twice, DependsOnKey(entry), Arr(Strings(dependsOn)), other);
  }

  lemma DependsOnReadsBack(entry: Dict, dependsOn: seq<string>)
    requires IsDict(entry)
    ensures ReadDependsOn(WithDependsOn(entry, dependsOn)) == Some(dependsOn)
  {
    var written := WithDependsOn(entry, dependsOn);
    DependsOnIsWritten(entry, dependsOn, "depends_on");
    DependsOnIsWritten(entry, dependsOn, "dependsOn");
    OneKeyReadsBack(written, DependsOnKey(entry), dependsOn);
  }

  lemma OverlayGets(entry: Dict, e: Edit, other: string)
    requires IsDict(entry)
    ensures IsDict(Overlay(entry, e))
    ensures Get(Overlay(entry, e), other) ==
      if other == "provides" then Some(Str(e.provided))
      else if other == "dependsOn" then Some(Arr(Strings(e.dependsOn)))
      else if other == "milestone" then Some(OrNull(e.milestone))
      else if other == "track" then Some(OrNull(e.track))
      else if other == "title" then Some(Str(e.title))
      else Get(entry, other)
  {
    var a := Put(entry, "title", Str(e.title));
    var b := Put(a, "track", OrNull(e.track));
    var c := Put(b, "milestone", OrNull(e.milestone));
    var d := Put(c, "dependsOn", Arr(Strings(e.dependsOn)));
    PutIsDict(entry, "title", Str(e.title));
    PutIsDict(a, "track", OrNull(e.track));
    PutIsDict(b, "milestone", OrNull(e.milestone));
    PutIsDict(c, "dependsOn", Arr(Strings(e.dependsOn)));
    PutIsDict(d, "provides", Str(e.provided));
    GetPut(entry, "title", Str(e.title), other);
    GetPut(a, "track", OrNull(e.track), other);
    GetPut(b, "milestone", OrNull(e.milestone), other);
    GetPut(c, "dependsOn", Arr(Strings(e.dependsOn)), other);
    GetPut(d, "provides", Str(e.provided), other);
  }

  /** The spelling an edited entry ends with. */
  function EditedKey(entry: Dict): string { if Has(entry, "depends_on") then "depends_on" else "dependsOn" }

  lemma MergedGets(entry: Dict, e: Edit, other: string)
    requires IsDict(entry)
    ensures IsDict(MergeEdit(entry, e))
    ensures Get(MergeEdit(entry, e), other) ==
      if other == EditedKey(entry) then Some(Arr(Strings(e.dependsOn)))
      else if other in SPELLINGS then None
      else Get(Overlay(entry, e), other)
  {
    OverlayGets(entry, e, "depends_on");
    OverlayGets(entry, e, "dependsOn");
    var over := Overlay(entry, e);
    assert Get(over, "depends_on").Some? <==> Get(entry, "depends_on").Some?;
    assert Get(over, "dependsOn").Some?;
    DependsOnIsWritten(over, e.dependsOn, other);
  }

  /** An edited entry carries one dependency key: the factory's if it had it, else the
      hand-written one, even where it had neither. */
  lemma EditedEntryHasOneKey(entry: Dict, e: Edit)
    requires IsDict(entry)
    ensures ReadDependsOn(MergeEdit(entry, e)) == Some(e.dependsOn)
    ensures Has(MergeEdit(entry, e), "depends_on") <==> Has(entry, "depends_on")
    ensures Has(MergeEdit(entry, e), "dependsOn") <==> !Has(entry, "depends_on")
  {
    var merged := MergeEdit(entry, e);
    MergedGets(entry, e, "depends_on");
    MergedGets(entry, e, "dependsOn");
    OneKeyReadsBack(merged, EditedKey(entry), e.dependsOn);
  }

  /** The edit's own fields are stored. */
  lemma EditedEntryHoldsEdit(entry: Dict, e: Edit)
    requires IsDict(entry)
    ensures
      var merged := MergeEdit(entry, e);
      && Get(merged, "title") == Some(Str(e.title))
      && Get(merged, "track") == Some(OrNull(e.track))
      && Get(merged, "milestone") == Some(OrNull(e.milestone))
      && Get(merged, "provides") == Some(Str(e.provided))
  {
    MergedGets(entry, e, "title");
    OverlayGets(entry, e, "title");
    MergedGets(entry, e, "track");
    OverlayGets(entry, e, "track");
    MergedGets(entry, e, "milestone");
    OverlayGets(entry, e, "milestone");
    MergedGets(entry, e, "provides");
    OverlayGets(entry, e, "provides");
  }

  /** Every key the edit does not own keeps its value, the id and the status among them. */
  lemma EditedEntryKeepsRest(entry: Dict, e: Edit, key: string)
    requires IsDict(entry) && key !in OWNED_KEYS && key !in SPELLINGS
    ensures Get(MergeEdit(entry, e), key) == Get(entry, key)
  {
    MergedGets(entry, e, key);
    OverlayGets(entry, e, key);
  }
}
