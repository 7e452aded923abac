/** Writing a matrix and reading it back loses nothing; whatever is read is well formed. */
module MatrixRoundTrip {
  import opened Js
  import opened Json
  import opened EvidenceMatrix

  // ---------- Names ----------

  lemma KindReadsBack(k: CriterionKind)
    ensures KindNamed(KindName(k)) == Some(k) && Clean(KindName(k))
  {
    TrimKeeps(KindName(k));
  }

  lemma LevelReadsBack(l: Level)
    ensures LevelNamed(LevelName(l)) == Some(l) && Clean(LevelName(l))
  {
    TrimKeeps(LevelName(l));
  }

  lemma RequiredReadsBack(k: RequiredKind)
    ensures RequiredNamed(RequiredName(k)) == Some(k) && Clean(RequiredName(k))
  {
    TrimKeeps(RequiredName(k));
  }

  lemma RoleReadsBack(r: Role)
    ensures RoleNamed(RoleName(r)) == Some(r) && Clean(RoleName(r))
  {
    TrimKeeps(RoleName(r));
  }

  lemma LevelNamesReadBack(levels: seq<Level>)
    ensures Texts(Some(StrArray(LevelNames(levels)))) == LevelNames(levels)
  {
    forall i | 0 <= i < |levels|
      ensures Clean(LevelNames(levels)[i])
    {
      LevelReadsBack(levels[i]);
    }
    hide Clean, LevelName;
    CleanTextsReadBack(LevelNames(levels));
  }

  lemma {:induction false} LevelsReadBack(levels: seq<Level>)
    ensures ReadLevels(LevelNames(levels)) == Some(levels)
  {
    hide LevelName, LevelNamed, Clean;
    if levels == [] {
      assert LevelNames(levels) == [];
    } else {
      var front := levels[..|levels| - 1];
      LevelReadsBack(levels[|levels| - 1]);
      LevelsReadBack(front);
      assert LevelNames(levels)[..|levels| - 1] == LevelNames(front);
      assert levels == front + [levels[|levels| - 1]];
    }
  }

  lemma RoleNamesReadBack(roles: seq<Role>)
    ensures Texts(Some(StrArray(RoleNames(roles)))) == RoleNames(roles)
  {
    forall i | 0 <= i < |roles|
      ensures Clean(RoleNames(roles)[i])
    {
      RoleReadsBack(roles[i]);
    }
    hide Clean, RoleName;
    CleanTextsReadBack(RoleNames(roles));
  }

  lemma {:induction false} RolesReadBack(roles: seq<Role>)
    ensures ReadRoles(RoleNames(roles)) == Some(roles)
  {
    hide RoleName, RoleNamed, Clean;
    if roles == [] {
      assert RoleNames(roles) == [];
    } else {
      var front := roles[..|roles| - 1];
      RoleReadsBack(roles[|roles| - 1]);
      RolesReadBack(front);
      assert RoleNames(roles)[..|roles| - 1] == RoleNames(front);
      assert roles == front + [roles[|roles| - 1]];
    }
  }

  // ---------- Items ----------

  lemma ItemReadsBack(i: Item)
    requires GoodItem(i)
    ensures ReadItem(WriteItem(i)) == Parsed(Some(i), [])
  {
    RequiredReadsBack(i.kind);
    var j := WriteItem(i);
    assert Field(j, "kind") == Some(Str(RequiredName(i.kind)));
    assert Field(j, "description") == Some(Str(i.description));
    assert Field(j, "command") == if i.command.Some? then Some(Str(i.command.value)) else None;
    hide RequiredName, RequiredNamed, Trim, WriteItem;
  }

  lemma {:induction false} ItemsReadBack(items: seq<Item>)
    requires forall n :: 0 <= n < |items| ==> GoodItem(items[n])
    ensures ReadItems(WriteItems(items)) == (items, [])
  {
    hide ReadItem, WriteItem, GoodItem;
    if items == [] {
      assert WriteItems(items) == [];
    } else {
      var front := items[..|items| - 1];
      ItemsReadBack(front);
      ItemReadsBack(items[|items| - 1]);
      assert WriteItems(items)[..|items| - 1] == WriteItems(front) && WriteItems(items)[|items| - 1] == WriteItem(items[|items| - 1]);
      assert items == front + [items[|items| - 1]];
    }
  }

  // ---------- Entries ----------

  lemma EntryFields(e: Entry)
    ensures var j := WriteEntry(e);
            && j.Obj?
            && Field(j, "criterion") == Some(Str(e.criterion))
            && Field(j, "criterionKind") == Some(Str(KindName(e.kind)))
            && Field(j, "businessRiskIfWrong") == Some(Str(e.risk))
            && Field(j, "enforcementLevel") == Some(StrArray(LevelNames(e.levels)))
            && Field(j, "requiredEvidence") == Some(Arr(WriteItems(e.evidence)))
            && Field(j, "reviewerRoles") == Some(StrArray(RoleNames(e.roles)))
            && Field(j, "blockingConditions") == Some(StrArray(e.blocking))
            && Field(j, "promptOnlyCaveat") == (if e.caveat.Some? then Some(Str(e.caveat.value)) else None)
            && Field(j, "manualValidationPlan") == (if e.manualPlan.Some? then Some(Str(e.manualPlan.value)) else None)
  {
    hide StrArray, WriteItems, LevelNames, RoleNames, KindName;
  }

  lemma EntryReadsBack(e: Entry)
    requires GoodEntry(e)
    ensures ReadEntry(WriteEntry(e)) == Parsed(Some(e), [])
  {
    EntryFields(e);
    KindReadsBack(e.kind);
    LevelsReadBack(e.levels);
    LevelNamesReadBack(e.levels);
    ItemsReadBack(e.evidence);
    RolesReadBack(e.roles);
    RoleNamesReadBack(e.roles);
    CleanTextsReadBack(e.blocking);
    OptionReadsBack(e.caveat);
    OptionReadsBack(e.manualPlan);
    hide Field, WriteEntry, KindName, KindNamed, ReadLevels, ReadRoles, ReadItems, WriteItems, TextsOf, Trim, LevelNames, RoleNames, GoodItem, Clean;
    TailReadsBack(e);
    CleanIsText(e.criterion);
    CleanIsText(KindName(e.kind));
    CleanIsText(e.risk);
    NamesAreThere(e);
    hide ReadEntryTail;
  }

  lemma NamesAreThere(e: Entry)
    ensures |LevelNames(e.levels)| == |e.levels| && |RoleNames(e.roles)| == |e.roles|
  {
  }

  lemma CleanIsText(s: string)
    requires Clean(s)
    ensures Text(Some(Str(s))) == s && s != ""
  {
  }

  lemma OptionReadsBack(t: Option<string>)
    requires CleanOption(t)
    ensures OptionalText(if t.Some? then Some(Str(t.value)) else None) == t
  {
  }

  lemma TailReadsBack(e: Entry)
    requires GoodEntry(e)
    ensures ReadEntryTail(WriteEntry(e), e.criterion, e.kind, e.risk, e.levels) == Parsed(Some(e), [])
  {
    hide Field, WriteEntry, KindName, ReadRoles, ReadItems, WriteItems, TextsOf, Trim, LevelNames, RoleNames, GoodItem, Clean, OptionalText, StrArray;
    EntryFields(e);
    ItemsReadBack(e.evidence);
    RolesReadBack(e.roles);
    RoleNamesReadBack(e.roles);
    BlockingReadsBack(e.blocking);
    OptionReadsBack(e.caveat);
    OptionReadsBack(e.manualPlan);
    NamesAreThere(e);
  }

  lemma BlockingReadsBack(blocking: seq<string>)
    requires forall i :: 0 <= i < |blocking| ==> Clean(blocking[i])
    ensures Texts(Some(StrArray(blocking))) == blocking
  {
    CleanTextsReadBack(blocking);
    hide Clean;
  }

  lemma {:induction false} EntriesReadBack(entries: seq<Entry>)
    requires forall n :: 0 <= n < |entries| ==> GoodEntry(entries[n])
    ensures ReadEntries(WriteMatrix(entries).items) == (entries, [])
  {
    hide ReadEntry, WriteEntry, GoodEntry;
    if entries == [] {
      assert WriteMatrix(entries).items == [];
    } else {
      var front := entries[..|entries| - 1];
      EntriesReadBack(front);
      EntryReadsBack(entries[|entries| - 1]);
      var rows := WriteMatrix(entries).items;
      assert rows[..|entries| - 1] == WriteMatrix(front).items && rows[|entries| - 1] == WriteEntry(entries[|entries| - 1]);
      assert entries == front + [entries[|entries| - 1]];
      var none: seq<IssueCode> := [];
      assert none + none == none;
    }
  }

  /** A matrix of well-formed rows survives writing and reading, without a complaint. */
  lemma MatrixReadsBack(entries: seq<Entry>)
    requires forall n :: 0 <= n < |entries| ==> GoodEntry(entries[n])
    ensures ReadMatrix(Some(WriteMatrix(entries))) == (entries, [])
  {
    EntriesReadBack(entries);
    hide ReadEntries;
  }

  // ---------- What is read is well formed ----------

  lemma {:induction false} ReadItemsAreGood(items: seq<Json>)
    ensures forall n :: 0 <= n < |ReadItems(items).0| ==> GoodItem(ReadItems(items).0[n])
  {
    if items != [] {
      ReadItemsAreGood(items[..|items| - 1]);
      var last := items[|items| - 1];
      TextIsClean(Field(last, "description"));
      TextIsClean(Field(last, "command"));
      hide Text, Clean, RequiredNamed;
    }
  }

  lemma {:induction false} ReadLevelsKeepLength(texts: seq<string>)
    ensures ReadLevels(texts).Some? ==> |ReadLevels(texts).value| == |texts|
  {
    if texts != [] {
      ReadLevelsKeepLength(texts[..|texts| - 1]);
    }
  }

  lemma {:induction false} ReadRolesKeepLength(texts: seq<string>)
    ensures ReadRoles(texts).Some? ==> |ReadRoles(texts).value| == |texts|
  {
    if texts != [] {
      ReadRolesKeepLength(texts[..|texts| - 1]);
    }
  }

  lemma ReadEntryIsGood(j: Json)
    ensures ReadEntry(j).value.Some? ==> GoodEntry(ReadEntry(j).value.value)
  {
    TextIsClean(Field(j, "criterion"));
    TextIsClean(Field(j, "businessRiskIfWrong"));
    TextIsClean(Field(j, "promptOnlyCaveat"));
    TextIsClean(Field(j, "manualValidationPlan"));
    ReadLevelsKeepLength(Texts(Field(j, "enforcementLevel")));
    ReadRolesKeepLength(Texts(Field(j, "reviewerRoles")));
    ReadItemsAreGood(Items(Field(j, "requiredEvidence")));
    TextsAreClean(Items(Field(j, "blockingConditions")));
    hide Field, Text, Clean, KindNamed, ReadLevels, ReadRoles, ReadItems, TextsOf, GoodItem;
  }

  lemma {:induction false} ReadEntriesAreGood(items: seq<Json>)
    ensures forall n :: 0 <= n < |ReadEntries(items).0| ==> GoodEntry(ReadEntries(items).0[n])
  {
    if items != [] {
      ReadEntriesAreGood(items[..|items| - 1]);
      ReadEntryIsGood(items[|items| - 1]);
      hide ReadEntry, GoodEntry;
    }
  }

  /** Whatever the file holds, the rows kept are well formed, so writing them back and reading again is clean. */
  lemma ReadMatrixIsGood(j: Option<Json>)
    ensures forall n :: 0 <= n < |ReadMatrix(j).0| ==> GoodEntry(ReadMatrix(j).0[n])
    ensures ReadMatrix(Some(WriteMatrix(ReadMatrix(j).0))) == (ReadMatrix(j).0, [])
  {
    if j.Some? && j.value.Arr? {
      ReadEntriesAreGood(j.value.items);
    }
    hide ReadEntries, GoodEntry, WriteMatrix;
    MatrixReadsBack(ReadMatrix(j).0);
  }
}
