/** Validating a change request: its form, every item against catalog, manifest and source, and the ids the change locks. */
module Validation {
  import opened Wrappers
  import opened TextOrder
  import W = SourceWriter
  import P = ApplyPlan
  import EnvSplice
  import EnvFile
  import EnvText

  datatype Requirement = Required | Optional | Unknown

  datatype Source = Source(appId: string, controlled: bool, maximum: nat, actionIds: seq<string>, checkIds: seq<string>)

  datatype CatalogEntry = CatalogEntry(appId: string, sourceId: string, name: string, requirement: Requirement, observed: bool,
                                       strategy: string, buildable: bool)

  datatype Item = Item(appId: string, sourceId: string, catalogId: string, name: string, delete: bool, value: Option<string>,
                       requirement: Requirement, observed: bool, strategy: string, fingerprint: W.Fingerprint)

  /** What reading a source yields. */
  datatype Read = Content(bytes: string) | Drifted | Unreadable

  /** Catalog and manifest, and the rule that the catalog's validator of an entry is for a value. */
  datatype Setting = Setting(appId: string, sources: map<string, Source>, catalog: map<string, CatalogEntry>,
                             rule: (string, string) -> bool)

  datatype ValidationError =
    | RequestInvalid | MetadataMismatch | UnknownVariable | ObservedVariable | RequiredDelete | SourceNotFound
    | DuplicateDefinition | SourceChanged | ParseFailed | RuleFailed | CrossRuleFailed | ApplicationFailed
    | BuildNotAllowed | StorageFailed

  datatype Plan = Plan(strategies: seq<string>, sourceIds: seq<string>, actionIds: seq<string>, checkIds: seq<string>)

  /** What is staged: the plan, and the items as the writes will see them. */
  datatype Draft = Draft(plan: Plan, items: seq<P.Item>)

  const MAX_ITEMS: nat := 256
  const MAX_VALUE: nat := 65536
  const BUILD: string := "build_redeploy"

  // ----- the form of a request ---------------------------------------------------

  predicate ItemFormed(item: Item) {
    (if item.delete then item.value.None? && item.requirement.Optional? else item.value.Some?) &&
    !item.observed && !item.requirement.Unknown?
  }

  predicate SameTarget(a: Item, b: Item) { a.sourceId == b.sourceId && a.catalogId == b.catalogId }

  /** What the request schema demands: well-formed items of one application, and no item twice. */
  predicate RequestOk(appId: string, items: seq<Item>) {
    0 < |items| <= MAX_ITEMS && (forall i :: 0 <= i < |items| ==> items[i].appId == appId && ItemFormed(items[i])) &&
    forall i, j :: 0 <= i < j < |items| ==> !SameTarget(items[i], items[j])
  }

  /** The error of a malformed request: that of its first item that is not editable, whatever else is wrong. */
  function FormError(items: seq<Item>): ValidationError {
    if items == [] then RequestInvalid
    else if items[0].delete && items[0].requirement.Required? then RequiredDelete
    else if items[0].observed || items[0].requirement.Unknown? then ObservedVariable
    else FormError(items[1..])
  }

  // ----- one item ----------------------------------------------------------------

  predicate Matches(item: Item, entry: CatalogEntry) {
    item.appId == entry.appId && item.sourceId == entry.sourceId && item.name == entry.name &&
    item.requirement == entry.requirement && item.observed == entry.observed && item.strategy == entry.strategy
  }

  /** What catalog and manifest say against an item. */
  function MetadataError(s: Setting, item: Item): Option<ValidationError> {
    if item.catalogId !in s.catalog then Some(UnknownVariable)
    else if item.sourceId !in s.sources || !Matches(item, s.catalog[item.catalogId]) then Some(MetadataMismatch)
    else if s.sources[item.sourceId].appId != s.appId || s.catalog[item.catalogId].appId != s.appId then Some(MetadataMismatch)
    else if !s.sources[item.sourceId].controlled || item.observed then Some(ObservedVariable)
    else if item.delete && !item.requirement.Optional? then Some(RequiredDelete)
    else None
  }

  predicate ValueOk(s: Setting, catalogId: string, value: string) {
    |value| <= MAX_VALUE && '\0' !in value && s.rule(catalogId, value)
  }

  /** What a source's bytes say against an item. */
  function BytesError(s: Setting, item: Item, bytes: string): Option<ValidationError>
    requires item.sourceId in s.sources
  {
    var parsed := EnvFile.ParseSource(bytes, s.sources[item.sourceId].maximum);
    if item.fingerprint != W.Fingerprint(item.sourceId, bytes) then Some(SourceChanged)
    else if parsed.Err? then Some(ParseFailed)
    else if W.Occurrences(parsed.value, item.name) != 1 then
      Some(if W.Occurrences(parsed.value, item.name) > 1 then DuplicateDefinition else SourceNotFound)
    else if !item.delete && !ValueOk(s, item.catalogId, if item.value.Some? then item.value.value else []) then Some(RuleFailed)
    else None
  }

  /** Why an item is refused, given what reading its source yields. */
  function ItemError(s: Setting, item: Item, read: Read): Option<ValidationError> {
    if MetadataError(s, item).Some? then MetadataError(s, item)
    else
      match read
      case Drifted => Some(SourceChanged)
      case Unreadable => Some(SourceNotFound)
      case Content(bytes) => BytesError(s, item, bytes)
  }

  function ReadOf(seen: map<string, Read>, id: string): Read { if id in seen then seen[id] else Unreadable }

  predicate ItemOk(s: Setting, item: Item, seen: map<string, Read>) { ItemError(s, item, ReadOf(seen, item.sourceId)).None? }

  /** A request that passes: well-formed, and every item is fine by one reading of each source. */
  predicate Admitted(s: Setting, items: seq<Item>, seen: map<string, Read>) {
    RequestOk(s.appId, items) && forall i :: 0 <= i < |items| ==> ItemOk(s, items[i], seen)
  }

  /** A build is asked for, and some item must not go into one. */
  predicate BuildRefused(s: Setting, items: seq<Item>) {
    (exists i :: 0 <= i < |items| && items[i].strategy == BUILD) &&
    exists i :: 0 <= i < |items| && !(items[i].catalogId in s.catalog && s.catalog[items[i].catalogId].buildable)
  }

  /** What is asked of the world while a request is validated, and what it answers. */
  datatype Answers = Answers(reading: string -> Read, crossRules: bool, application: bool, stored: bool)

  /** The error of the first item that is refused. */
  function ItemsError(s: Setting, items: seq<Item>, reading: string -> Read): Option<ValidationError> {
    if items == [] then None
    else if ItemError(s, items[0], reading(items[0].sourceId)).Some? then ItemError(s, items[0], reading(items[0].sourceId))
    else ItemsError(s, items[1..], reading)
  }

  /** Why a request is refused: its form, its versions, its first bad item, and what is asked of the world after that. */
  function Verdict(s: Setting, versionsAgree: bool, items: seq<Item>, answers: Answers): Option<ValidationError> {
    if !RequestOk(s.appId, items) then Some(FormError(items))
    else if !versionsAgree then Some(MetadataMismatch)
    else if ItemsError(s, items, answers.reading).Some? then ItemsError(s, items, answers.reading)
    else if !answers.crossRules then Some(CrossRuleFailed)
    else if !answers.application then Some(ApplicationFailed)
    else if BuildRefused(s, items) then Some(BuildNotAllowed)
    else if !answers.stored then Some(StorageFailed)
    else None
  }

  /** Every source that was read holds what reading it yields. */
  ghost predicate ReadRight(reading: string -> Read, seen: map<string, Read>) {
    forall id :: id in seen ==> seen[id] == reading(id)
  }

  // ----- what is staged ----------------------------------------------------------

  function OperationOf(item: Item): EnvSplice.Operation {
    EnvSplice.Operation(item.name, 0, item.delete, item.requirement.Optional?, item.value)
  }

  function Persisted(items: seq<Item>): seq<P.Item> {
    if items == [] then []
    else
      var last := items[|items| - 1];
      Persisted(items[..|items| - 1]) + [P.Item(last.sourceId, OperationOf(last), last.fingerprint)]
  }

  function SourcesOf(items: seq<Item>): seq<string> {
    if items == [] then [] else SourcesOf(items[..|items| - 1]) + [items[|items| - 1].sourceId]
  }

  function StrategiesOf(items: seq<Item>): seq<string> {
    if items == [] then [] else StrategiesOf(items[..|items| - 1]) + [items[|items| - 1].strategy]
  }

  lemma {:induction false} SourcesAre(items: seq<Item>, id: string)
    ensures id in SourcesOf(items) <==> exists i :: 0 <= i < |items| && items[i].sourceId == id
  {
    if items != [] { SourcesAre(items[..|items| - 1], id); }
  }

  lemma {:induction false} StrategiesAre(items: seq<Item>, x: string)
    ensures x in StrategiesOf(items) <==> exists i :: 0 <= i < |items| && items[i].strategy == x
  {
    if items != [] { StrategiesAre(items[..|items| - 1], x); }
  }

  function ActionsOf(ids: seq<string>, sources: map<string, Source>): seq<string>
    requires forall i :: 0 <= i < |ids| ==> ids[i] in sources
  {
    if ids == [] then [] else ActionsOf(ids[..|ids| - 1], sources) + sources[ids[|ids| - 1]].actionIds
  }

  function ChecksOf(ids: seq<string>, sources: map<string, Source>): seq<string>
    requires forall i :: 0 <= i < |ids| ==> ids[i] in sources
  {
    if ids == [] then [] else ChecksOf(ids[..|ids| - 1], sources) + sources[ids[|ids| - 1]].checkIds
  }

  /** A plan for a change of the application: sorted ids without duplicates, and exactly the touched sources. */
  ghost predicate PlanRight(s: Setting, items: seq<Item>, plan: Plan) {
    Ascending(plan.strategies) && Ascending(plan.sourceIds) && Ascending(plan.actionIds) && Ascending(plan.checkIds) &&
    (forall x :: x in plan.strategies <==> exists i :: 0 <= i < |items| && items[i].strategy == x) &&
    (forall id :: id in plan.sourceIds <==> exists i :: 0 <= i < |items| && items[i].sourceId == id) &&
    (forall id :: id in plan.sourceIds ==> id in s.sources && s.sources[id].appId == s.appId && s.sources[id].controlled) &&
    (forall a :: a in plan.actionIds ==> exists id :: id in plan.sourceIds && id in s.sources && a in s.sources[id].actionIds) &&
    (forall id, a :: id in plan.sourceIds && id in s.sources && a in s.sources[id].actionIds ==> a in plan.actionIds) &&
    (forall a :: a in plan.checkIds ==> exists id :: id in plan.sourceIds && id in s.sources && a in s.sources[id].checkIds) &&
    (forall id, a :: id in plan.sourceIds && id in s.sources && a in s.sources[id].checkIds ==> a in plan.checkIds)
  }

  lemma {:induction false} ActionsAre(ids: seq<string>, sources: map<string, Source>, a: string)
    requires forall i :: 0 <= i < |ids| ==> ids[i] in sources
    ensures a in ActionsOf(ids, sources) <==> exists i :: 0 <= i < |ids| && a in sources[ids[i]].actionIds
  {
    if ids != [] { ActionsAre(ids[..|ids| - 1], sources, a); }
  }

  lemma {:induction false} ChecksAre(ids: seq<string>, sources: map<string, Source>, a: string)
    requires forall i :: 0 <= i < |ids| ==> ids[i] in sources
    ensures a in ChecksOf(ids, sources) <==> exists i :: 0 <= i < |ids| && a in sources[ids[i]].checkIds
  {
    if ids != [] { ChecksAre(ids[..|ids| - 1], sources, a); }
  }

  // ----- the checks --------------------------------------------------------------

  /** Sources that were read, and of those the parsed ones. */
  ghost predicate CachesRight(s: Setting, seen: map<string, Read>, parsed: map<string, seq<EnvText.Definition>>) {
    forall id :: id in parsed ==>
      id in s.sources && id in seen && seen[id].Content? &&
      EnvFile.ParseSource(seen[id].bytes, s.sources[id].maximum) == Ok(parsed[id])
  }

  /** What is read stays, and only the item's source may be new. */
  ghost predicate OnlyNew(before: map<string, Read>, after: map<string, Read>, id: string) {
    (forall x :: x in before ==> x in after && after[x] == before[x]) && forall x :: x in after ==> x in before || x == id
  }

  /** The first item that is not editable decides which error a malformed request has. */
  method ClassifyFailure(items: seq<Item>) returns (e: ValidationError)
    ensures e == FormError(items)
  {
    for i := 0 to |items|
      invariant FormError(items) == FormError(items[i..])
    {
      var item := items[i];
      if item.delete && item.requirement == Required { return RequiredDelete; }
      if item.observed || item.requirement == Unknown { return ObservedVariable; }
      assert items[i..][1..] == items[i + 1..];
    }
    return RequestInvalid;
  }

  /** The schema of a request. */
  method Formed(appId: string, items: seq<Item>) returns (ok: bool)
    ensures ok <==> RequestOk(appId, items)
  {
    if |items| == 0 || |items| > 256 { return false; }
    var targets: set<(string, string)> := {};
    for i := 0 to |items|
      invariant forall j :: 0 <= j < i ==> items[j].appId == appId && ItemFormed(items[j])
      invariant forall j, k :: 0 <= j < k < i ==> !SameTarget(items[j], items[k])
      invariant targets == set j | 0 <= j < i :: (items[j].sourceId, items[j].catalogId)
    {
      var item := items[i];
      if item.appId != appId { return false; }
      if item.delete && (item.value.Some? || item.requirement != Optional) { return false; }
      if !item.delete && item.value.None? { return false; }
      if item.observed || item.requirement == Unknown { return false; }
      if (item.sourceId, item.catalogId) in targets { return false; }
      targets := targets + {(item.sourceId, item.catalogId)};
    }
    return true;
  }

  /** Check one item; a source is read and parsed once. */
  method CheckItem(s: Setting, reading: string -> Read, item: Item, seen: map<string, Read>,
                   parsed: map<string, seq<EnvText.Definition>>)
    returns (failed: Option<ValidationError>, seen': map<string, Read>, parsed': map<string, seq<EnvText.Definition>>)
    requires CachesRight(s, seen, parsed) && ReadRight(reading, seen)
    ensures CachesRight(s, seen', parsed') && ReadRight(reading, seen') && OnlyNew(seen, seen', item.sourceId)
    ensures failed == ItemError(s, item, reading(item.sourceId)) && (failed.None? ==> item.sourceId in seen')
  {
    seen', parsed' := seen, parsed;
    if item.catalogId !in s.catalog { return Some(UnknownVariable), seen', parsed'; }
    var entry := s.catalog[item.catalogId];
    if item.sourceId !in s.sources || entry.appId != item.appId || entry.sourceId != item.sourceId || entry.name != item.name ||
    entry.requirement != item.requirement || entry.observed != item.observed || entry.strategy != item.strategy
    {
      return Some(MetadataMismatch), seen', parsed';
    }
    var source := s.sources[item.sourceId];
    if source.appId != s.appId || entry.appId != s.appId { return Some(MetadataMismatch), seen', parsed'; }
    if !source.controlled || entry.observed { return Some(ObservedVariable), seen', parsed'; }
    if item.delete && !entry.requirement.Optional? { return Some(RequiredDelete), seen', parsed'; }
    if item.sourceId !in seen { seen' := seen[item.sourceId := reading(item.sourceId)]; }
    match seen'[item.sourceId] {
      case Drifted => return Some(SourceChanged), seen', parsed';
      case Unreadable => return Some(SourceNotFound), seen', parsed';
      case Content(bytes) => failed, parsed' := CheckBytes(s, item, bytes, seen', parsed);
    }
  }

  /** Check an item against the bytes of its source. */
  method CheckBytes(s: Setting, item: Item, bytes: string, ghost seen: map<string, Read>,
                    parsed: map<string, seq<EnvText.Definition>>)
    returns (failed: Option<ValidationError>, parsed': map<string, seq<EnvText.Definition>>)
    requires item.sourceId in s.sources && item.sourceId in seen && seen[item.sourceId] == Content(bytes)
    requires CachesRight(s, seen, parsed)
    ensures failed == BytesError(s, item, bytes) && CachesRight(s, seen, parsed')
  {
    parsed' := parsed;
    if W.Fingerprint(item.sourceId, bytes) != item.fingerprint { return Some(SourceChanged), parsed'; }
    if item.sourceId !in parsed {
      var definitions := EnvFile.ParseTextAssignments(bytes, s.sources[item.sourceId].maximum);
      if definitions.Err? { return Some(ParseFailed), parsed'; }
      parsed' := parsed[item.sourceId := definitions.value];
    }
    var count := W.Occurrences(parsed'[item.sourceId], item.name);
    if count != 1 {
      if count > 1 { return Some(DuplicateDefinition), parsed'; }
      return Some(SourceNotFound), parsed';
    }
    if !item.delete {
      var value := if item.value.Some? then item.value.value else [];
      if |value| > 65536 || '\0' in value { return Some(RuleFailed), parsed'; }
      if !s.rule(item.catalogId, value) { return Some(RuleFailed), parsed'; }
    }
    return None, parsed';
  }

  /** Check the items in order, until one fails. */
  method CheckItems(s: Setting, reading: string -> Read, items: seq<Item>)
    returns (failed: Option<ValidationError>, seen: map<string, Read>)
    ensures failed == ItemsError(s, items, reading) && ReadRight(reading, seen)
    ensures failed.None? ==> forall i :: 0 <= i < |items| ==> ItemOk(s, items[i], seen)
  {
    seen := map[];
    var parsed: map<string, seq<EnvText.Definition>> := map[];
    for i := 0 to |items|
      invariant CachesRight(s, seen, parsed) && ReadRight(reading, seen)
      invariant ItemsError(s, items, reading) == ItemsError(s, items[i..], reading)
      invariant forall j :: 0 <= j < i ==> items[j].sourceId in seen && ItemOk(s, items[j], seen)
    {
      ghost var before := seen;
      failed, seen, parsed := CheckItem(s, reading, items[i], seen, parsed);
      forall j | 0 <= j < i
        ensures items[j].sourceId in seen && ItemOk(s, items[j], seen)
      {
        assert ItemOk(s, items[j], before) && ReadOf(seen, items[j].sourceId) == ReadOf(before, items[j].sourceId);
      }
      if failed.Some? { return; }
      assert items[i..][1..] == items[i + 1..];
    }
    failed := None;
  }

  /** The items as the writes will see them. */
  method Stage(items: seq<Item>) returns (staged: seq<P.Item>)
    ensures staged == Persisted(items)
  {
    staged := [];
    for i := 0 to |items|
      invariant staged == Persisted(items[..i])
    {
      assert items[..i + 1][..i] == items[..i];
      var item := items[i];
      var operation := EnvSplice.Operation(item.name, 0, item.delete, item.requirement == Optional, item.value);
      staged := staged + [P.Item(item.sourceId, operation, item.fingerprint)];
    }
    assert items[..|items|] == items;
  }

  /** The plan of an admitted request. */
  method PlanFor(s: Setting, items: seq<Item>, ghost seen: map<string, Read>) returns (plan: Plan)
    requires Admitted(s, items, seen)
    ensures PlanRight(s, items, plan)
  {
    var touched, strategies := SourcesOf(items), StrategiesOf(items);
    forall id: string
      ensures id in touched <==> exists i :: 0 <= i < |items| && items[i].sourceId == id
    {
      SourcesAre(items, id);
    }
    forall x: string
      ensures x in strategies <==> exists i :: 0 <= i < |items| && items[i].strategy == x
    {
      StrategiesAre(items, x);
    }
    forall id | id in touched
      ensures id in s.sources && s.sources[id].appId == s.appId && s.sources[id].controlled
    {
      var i :| 0 <= i < |items| && items[i].sourceId == id;
      assert ItemOk(s, items[i], seen);
    }
    plan := ImpactPlan(strategies, touched, s.sources);
  }

  /** A change that builds may hold only what may go into a build. */
  method CheckBuild(s: Setting, items: seq<Item>, plan: Plan) returns (ok: bool)
    requires PlanRight(s, items, plan)
    ensures ok <==> !BuildRefused(s, items)
  {
    if "build_redeploy" in plan.strategies {
      for i := 0 to |items|
        invariant forall j :: 0 <= j < i ==> items[j].catalogId in s.catalog && s.catalog[items[j].catalogId].buildable
      {
        if items[i].catalogId !in s.catalog || !s.catalog[items[i].catalogId].buildable { return false; }
      }
    }
    return true;
  }

  /** The sorted, duplicate-free ids of a change. */
  method ImpactPlan(strategies: seq<string>, touched: seq<string>, sources: map<string, Source>) returns (plan: Plan)
    requires forall i :: 0 <= i < |touched| ==> touched[i] in sources
    ensures Ascending(plan.strategies) && (forall x :: x in plan.strategies <==> x in strategies)
    ensures Ascending(plan.sourceIds) && Ascending(plan.actionIds) && Ascending(plan.checkIds)
    ensures forall id :: id in plan.sourceIds <==> id in touched
    ensures forall a :: a in plan.actionIds <==> exists i :: 0 <= i < |touched| && a in sources[touched[i]].actionIds
    ensures forall a :: a in plan.checkIds <==> exists i :: 0 <= i < |touched| && a in sources[touched[i]].checkIds
  {
    var actions, checks := [], [];
    for i := 0 to |touched|
      invariant actions == ActionsOf(touched[..i], sources) && checks == ChecksOf(touched[..i], sources)
    {
      assert touched[..i + 1][..i] == touched[..i];
      actions, checks := actions + sources[touched[i]].actionIds, checks + sources[touched[i]].checkIds;
    }
    assert touched[..|touched|] == touched;
    plan := Plan(SortedUnique(strategies), SortedUnique(touched), SortedUnique(actions), SortedUnique(checks));
    SortedUniqueIs(strategies, "");
    SortedUniqueIs(touched, "");
    SortedUniqueIs(actions, "");
    SortedUniqueIs(checks, "");
    forall x: string
      ensures x in plan.strategies <==> x in strategies
    {
      SortedUniqueIs(strategies, x);
    }
    forall id: string
      ensures id in plan.sourceIds <==> id in touched
    {
      SortedUniqueIs(touched, id);
    }
    forall a: string
      ensures a in plan.actionIds <==> exists i :: 0 <= i < |touched| && a in sources[touched[i]].actionIds
    {
      SortedUniqueIs(actions, a);
      ActionsAre(touched, sources, a);
    }
    forall a: string
      ensures a in plan.checkIds <==> exists i :: 0 <= i < |touched| && a in sources[touched[i]].checkIds
    {
      SortedUniqueIs(checks, a);
      ChecksAre(touched, sources, a);
    }
  }

  /** Check every item, then name the sources, actions and checks of the change. */
  method Validate(s: Setting, versionsAgree: bool, items: seq<Item>, answers: Answers)
    returns (r: Result<Draft, ValidationError>, ghost seen: map<string, Read>)
    ensures var verdict := Verdict(s, versionsAgree, items, answers);
            if verdict.Some? then r == Err(verdict.value) else r.Ok?
    ensures r.Ok? ==> Admitted(s, items, seen) && ReadRight(answers.reading, seen)
    ensures r.Ok? ==> PlanRight(s, items, r.value.plan) && r.value.items == Persisted(items)
  {
    seen := map[];
    var formed := Formed(s.appId, items);
    if !formed {
      var error := ClassifyFailure(items);
      return Err(error), seen;
    }
    if !versionsAgree { return Err(MetadataMismatch), seen; }
    var failed: Option<ValidationError>;
    failed, seen := CheckItems(s, answers.reading, items);
    if failed.Some? { return Err(failed.value), seen; }
    if !answers.crossRules { return Err(CrossRuleFailed), seen; }
    if !answers.application { return Err(ApplicationFailed), seen; }
    var plan := PlanFor(s, items, seen);
    var build := CheckBuild(s, items, plan);
    if !build { return Err(BuildNotAllowed), seen; }
    if !answers.stored { return Err(StorageFailed), seen; }
    var staged := Stage(items);
    r := Ok(Draft(plan, staged));
  }
}
