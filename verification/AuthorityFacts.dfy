/** The vocabulary of structured authority references: how a shape is selected, and the strict check that a
    producer's facts pass before they are encoded. */
module AuthorityFacts {
  import opened Prelude

  /** The values of a facts object or of a request's target. */
  datatype Value = Str(s: string) | Num(n: int) | Bool(b: bool) | Uuid(id: nat) | Null | OtherValue(what: nat)

  datatype Key = Text(name: string) | NotText(what: nat)

  type Named = map<string, Value>

  const REFUSAL_KEY := "x"
  const SENTINEL := Str("-")

  datatype FactKind =
    | Ref | RefOrNull | Engagement | ConsentU | ConsentW | Provision | PolicyK
    | FoundingRule | FoundingRegistration | FoundingTerms | Descriptive | Literal

  datatype FactKey = FactKey(kind: FactKind, required: bool, literals: Option<set<string>>)

  datatype Selector = NoSelector | RoleEventAction | ElectionTargetForm | DefinitionEventAction

  /** `Odd` is a form that is neither text nor absent; no shape is declared for it. */
  datatype Form = NoForm | Form(name: string) | Odd

  datatype Entry = Entry(form: Form, discriminators: map<string, string>, keys: map<string, FactKey>, exact: bool,
                         foundingBlock: bool, proposeRole: bool, exactlyOne: seq<set<string>>,
                         requiredWhen: map<string, map<string, set<string>>>)

  datatype RefusalShape = RefusalShape(keys: map<string, FactKey>, exact: bool)

  datatype ActionFacts = ActionFacts(selector: Selector, entries: seq<Entry>, refusals: map<Form, RefusalShape>)

  datatype Request = Request(action: string, target: Option<Named>, versionKind: Value, versionUuid: Value, organism: Value)

  function Get(m: Named, key: string): Value { if key in m then m[key] else Null }

  /** A target that is not a mapping reads as an empty one. */
  function TargetOf(request: Request): Named { if request.target.Some? then request.target.value else map[] }

  // ---------------------------------------------------------------- the form of a request

  function RoleEventForm(request: Request): Form {
    var target := TargetOf(request);
    if Get(target, "event_action") != Str("PROPOSE") then Form("TRANSITION")
    else
      var source := if "nomination_rule_source" in target then target["nomination_rule_source"] else Str("CONFIGURATION");
      if source == Str("DEFINITION") then Form("PROPOSE_DEFINITION")
      else if source == Str("CONFIGURATION") then Form("PROPOSE") else NoForm
  }

  function ElectionForm(request: Request): Form {
    if request.target.None? then NoForm
    else
      var target := request.target.value;
      if request.versionKind != Str("EFFECT") || Get(target, "action") != Str(request.action)
         || Get(target, "organism_uuid") != request.organism then NoForm
      else if target.Keys == {"action", "organism_uuid", "snapshot_uuid"} then
        if target["snapshot_uuid"].Str? && request.versionUuid != Null then Form("SNAPSHOT") else NoForm
      else if target.Keys == {"action", "organism_uuid", "version_uuid"} then
        if target["version_uuid"].Uuid? && target["version_uuid"] == request.versionUuid then Form("GATEWAY") else NoForm
      else NoForm
  }

  function SelectForm(vocabulary: ActionFacts, request: Request): Form {
    match vocabulary.selector
    case RoleEventAction => RoleEventForm(request)
    case ElectionTargetForm => ElectionForm(request)
    case DefinitionEventAction =>
      (if request.target.None? then NoForm
       else match Get(request.target.value, "event_action") case Str(s) => Form(s) case Null => NoForm case _ => Odd)
    case NoSelector => NoForm
  }

  // ---------------------------------------------------------------- selection

  predicate Matches(e: Entry, form: Form, content: Named) {
    e.form == form && forall k | k in e.discriminators :: k in content && content[k] == Str(e.discriminators[k])
  }

  function Matching(vocabulary: ActionFacts, form: Form, content: Named): (r: seq<Entry>)
    ensures forall e | e in r :: e in vocabulary.entries && Matches(e, form, content)
  {
    Filter(vocabulary.entries, (e: Entry) => Matches(e, form, content))
  }

  /** None when no entry, or more than one, matches. */
  function SelectEntry(vocabulary: ActionFacts, request: Request, content: Named): (r: Option<Entry>)
    ensures r.Some? ==> r.value in vocabulary.entries && Matches(r.value, SelectForm(vocabulary, request), content)
  {
    var matches := Matching(vocabulary, SelectForm(vocabulary, request), content);
    if |matches| != 1 then None else assert matches[0] in matches; Some(matches[0])
  }

  function SelectRefusal(vocabulary: ActionFacts, request: Request): RefusalShape {
    var form := SelectForm(vocabulary, request);
    if form in vocabulary.refusals then vocabulary.refusals[form] else RefusalShape(map[], true)
  }

  datatype SelectedShape = SelectedShape(keys: map<string, FactKey>, discriminators: set<string>,
                                         exactSet: Option<set<string>>, foundingBlock: bool, proposeRole: bool)

  /** `select_shape`, what the compatible reader walks. */
  function SelectShape(vocabulary: ActionFacts, request: Request, content: Named): Option<SelectedShape> {
    if REFUSAL_KEY in content then
      var shape := SelectRefusal(vocabulary, request);
      Some(SelectedShape(shape.keys, {}, if shape.exact then Some({REFUSAL_KEY}) else None, false, false))
    else
      match SelectEntry(vocabulary, request, content)
      case None => None
      case Some(e) =>
        Some(SelectedShape(e.keys, e.discriminators.Keys,
                           if e.exact then Some(e.discriminators.Keys + e.keys.Keys) else None, e.foundingBlock, e.proposeRole))
  }

  // ---------------------------------------------------------------- lawful values

  predicate StartsWith(s: string, p: string) { |p| <= |s| && s[..|p|] == p }

  predicate EndsWith(s: string, p: string) { |p| <= |s| && s[|s| - |p|..] == p }

  predicate FoundingForm(kind: FactKind, v: Value) {
    v.Str? && match kind
              case FoundingRule => StartsWith(v.s, "platform-terms-version:") && EndsWith(v.s, "#founding")
              case FoundingRegistration => StartsWith(v.s, "learner-registration:")
              case FoundingTerms => StartsWith(v.s, "platform-terms-acceptance:")
              case _ => false
  }

  predicate InLiterals(spec: FactKey, v: Value) { v.Str? && (spec.literals.None? || v.s in spec.literals.value) }

  /** `_value_is_lawful`. */
  predicate Lawful(spec: FactKey, v: Value) {
    match spec.kind
    case Provision => v == Str("AR")
    case Ref => (v == SENTINEL && spec.literals.None?) || InLiterals(spec, v)
    case Engagement => (v == SENTINEL && spec.literals.None?) || v.Num? || InLiterals(spec, v)
    case PolicyK => InLiterals(spec, v)
    case Descriptive => InLiterals(spec, v)
    case Literal => InLiterals(spec, v)
    case RefOrNull => v == Null || v.Str?
    case ConsentU => v.Str? && (StartsWith(v.s, "c:") || StartsWith(v.s, "e:"))
    case ConsentW => v.Str?
    case _ => FoundingForm(spec.kind, v)
  }

  // ---------------------------------------------------------------- the strict check

  datatype Defect =
    | KeyNotText | NoVocabulary | WrongCode | RefusalAdmitsOnlyX | Undeclared | Unlawful | QualifiedCarriesX | NoSingleEntry
    | MissingRequired | NotExact | NotExactlyOne | MissingCompanion | ProvisionWithoutDefinition | NotARealReference
    | Participation | CustomEvidence | EntitlementMissing | EntitlementUndue | NoRoleDefinition

  const POLICIES := {"A", "B", "C"}

  predicate IsOneOf(v: Value, words: set<string>) { v.Str? && v.s in words }

  /** `propose_role_reference`, as to whether there is one. */
  predicate NamesRole(request: Request) {
    var v := Get(TargetOf(request), "role_definition_uuid");
    v.Str? || v.Uuid?
  }

  function ValidateRefusal(vocabulary: ActionFacts, request: Request, facts: Named, code: string): Option<Defect> {
    var shape := SelectRefusal(vocabulary, request);
    var extra := facts.Keys - {REFUSAL_KEY};
    if Get(facts, REFUSAL_KEY) != Str(code) then Some(WrongCode)
    else if shape.exact && extra != {} then Some(RefusalAdmitsOnlyX)
    else if exists k :: k in extra && k !in shape.keys then Some(Undeclared)
    else if exists k :: k in extra && k in shape.keys && !Lawful(shape.keys[k], facts[k]) then Some(Unlawful)
    else None
  }

  /** What the producer's check asks of facts under an entry, key by key. */
  predicate HasRequired(e: Entry, facts: Named) { forall k | k in e.keys && e.keys[k].required :: k in facts }

  predicate AllLawful(e: Entry, facts: Named) {
    forall k | k in facts && k !in e.discriminators && k in e.keys :: Lawful(e.keys[k], facts[k])
  }

  predicate GroupsMet(e: Entry, facts: Named) { forall group | group in e.exactlyOne :: |group * facts.Keys| == 1 }

  predicate CompanionsMet(e: Entry, facts: Named) {
    forall k | k in e.requiredWhen :: CompanionsPresent(e.requiredWhen[k], Get(facts, k), facts.Keys)
  }

  /** The part of the qualified check that the entry alone decides. */
  function ValidateEntry(e: Entry, facts: Named): Option<Defect> {
    var present, admissible := facts.Keys, e.discriminators.Keys + e.keys.Keys;
    if !(present <= admissible) then Some(Undeclared)
    else if !HasRequired(e, facts) then Some(MissingRequired)
    else if e.exact && present != admissible then Some(NotExact)
    else if !AllLawful(e, facts) then Some(Unlawful)
    else if !GroupsMet(e, facts) then Some(NotExactlyOne)
    else if !CompanionsMet(e, facts) then Some(MissingCompanion)
    else None
  }

  predicate CompanionsPresent(needs: map<string, set<string>>, v: Value, present: set<string>) {
    v.Str? && v.s in needs ==> needs[v.s] <= present
  }

  /** `validate_definition_nomination_facts` with `partial`, on what the target states. */
  function ValidateNomination(facts: Named, definition: Named): Option<Defect> {
    var required := Get(definition, "participation_required") == Bool(true);
    var entitled := Get(definition, "nomination_basis") == Str("SILENT") && IsOneOf(Get(facts, "k"), {"A", "B"});
    if "participation_required" in definition && (("e" in facts) != required || (required && Get(facts, "e") == SENTINEL)) then
      Some(Participation)
    else if "kind" in definition && (Get(facts, "z") == Str("CUSTOM_ROLES")) != (Get(definition, "kind") == Str("CUSTOM")) then
      Some(CustomEvidence)
    else if "nomination_basis" in definition && entitled && !RealText(Get(facts, "i")) then Some(EntitlementMissing)
    else if "nomination_basis" in definition && !entitled && Get(facts, "i") != Null then Some(EntitlementUndue)
    else None
  }

  predicate RealText(v: Value) { v.Str? && v.s != "" && v != SENTINEL }

  function ValidateForm(vocabulary: ActionFacts, e: Entry, request: Request, facts: Named): Option<Defect> {
    var form := SelectForm(vocabulary, request);
    if form != Form("PROPOSE_DEFINITION") then None
    else if exists k :: k in e.keys && e.keys[k].kind == Ref && e.keys[k].literals.None? && Get(facts, k) == SENTINEL then
      Some(NotARealReference)
    else ValidateNomination(facts, TargetOf(request))
  }

  function ValidateDefinitionEvent(vocabulary: ActionFacts, request: Request, facts: Named): Option<Defect> {
    var form, target := SelectForm(vocabulary, request), TargetOf(request);
    if vocabulary.selector != DefinitionEventAction then None
    else if Get(facts, "c") == SENTINEL || Get(facts, "o") == SENTINEL
            || (form != Form("DEFINE") && Get(facts, "g") == SENTINEL) then
      Some(NotARealReference)
    else if form != Form("DEFINE") && form != Form("AMEND") then None
    else if (Get(facts, "z") == Str("CUSTOM_ROLES")) != (Get(target, "kind") == Str("CUSTOM")) then Some(CustomEvidence)
    else if "i" in facts && !(Get(target, "nomination_basis") == Str("SILENT")
                              && IsOneOf(Get(target, "nomination_policy"), {"A", "B"}) && Get(target, "kind") != Str("CUSTOM")) then
      Some(EntitlementUndue)
    else None
  }

  function ValidateQualified(vocabulary: ActionFacts, request: Request, facts: Named): Option<Defect> {
    if REFUSAL_KEY in facts then Some(QualifiedCarriesX)
    else match SelectEntry(vocabulary, request, facts)
         case None => Some(NoSingleEntry)
         case Some(e) =>
           if ValidateEntry(e, facts).Some? then ValidateEntry(e, facts)
           else if "y" in facts && (!Get(facts, "g").Str? || Get(facts, "g") == SENTINEL) then Some(ProvisionWithoutDefinition)
           else if ValidateForm(vocabulary, e, request, facts).Some? then ValidateForm(vocabulary, e, request, facts)
           else if ValidateDefinitionEvent(vocabulary, request, facts).Some? then
             ValidateDefinitionEvent(vocabulary, request, facts)
           else if e.proposeRole && IsOneOf(Get(facts, "k"), POLICIES) && !NamesRole(request) then Some(NoRoleDefinition)
           else None
  }

  function NamedPart(facts: map<Key, Value>): Named { map k | k in facts && k.Text? :: k.name := facts[k] }

  /** `validate_authority_facts`; None means accepted. `vocabulary` is the action's row of the table, if it has one. */
  function Validate(vocabulary: Option<ActionFacts>, request: Request, facts: map<Key, Value>,
                    code: Option<string>): Option<Defect>
  {
    var named := NamedPart(facts);
    if exists k :: k in facts && !k.Text? then Some(KeyNotText)
    else if vocabulary.None? then
      if code.Some? && named.Keys == {REFUSAL_KEY} && Get(named, REFUSAL_KEY) == Str(code.value) then None else Some(NoVocabulary)
    else if code.Some? then ValidateRefusal(vocabulary.value, request, named, code.value)
    else ValidateQualified(vocabulary.value, request, named)
  }

  // ---------------------------------------------------------------- strict refines compatible

  /** What the reader refuses by shape alone: no shape, a key the shape does not admit, or an exact set not met. */
  predicate Readable(vocabulary: ActionFacts, request: Request, content: Named) {
    match SelectShape(vocabulary, request, content)
    case None => false
    case Some(shape) =>
      && (forall k | k in content ::
            k in shape.keys || k in shape.discriminators || (k == REFUSAL_KEY && shape.discriminators == {}))
      && (shape.exactSet.Some? ==> content.Keys == shape.exactSet.value)
  }

  /** Whatever the producer's check accepts, qualified or refusal, the reader can read; a refusal is read as one
      and carries just its code, a qualified output never looks like one. */
  lemma StrictRefinesCompatible(vocabulary: ActionFacts, request: Request, facts: map<Key, Value>, code: Option<string>)
    requires Validate(Some(vocabulary), request, facts, code).None?
    ensures facts.Keys == set k | k in NamedPart(facts) :: Text(k)
    ensures Readable(vocabulary, request, NamedPart(facts))
    ensures REFUSAL_KEY in NamedPart(facts) <==> code.Some?
    ensures code.Some? ==> facts[Text(REFUSAL_KEY)] == Str(code.value)
    ensures var shape := SelectShape(vocabulary, request, NamedPart(facts)).value;
            forall k | k in NamedPart(facts) && k in shape.keys && k !in shape.discriminators && k != REFUSAL_KEY ::
              Lawful(shape.keys[k], NamedPart(facts)[k])
  {
    hide Lawful; hide Matching; hide ValidateForm; hide ValidateDefinitionEvent; hide SelectForm;
    var named := NamedPart(facts);
    assert forall k | k in facts :: k == Text(k.name) && k.name in named;
    if code.Some? {
      RefusalIsReadable(vocabulary, request, named, code.value);
    } else {
      QualifiedIsReadable(vocabulary, request, named);
    }
  }

  lemma RefusalIsReadable(vocabulary: ActionFacts, request: Request, facts: Named, code: string)
    requires ValidateRefusal(vocabulary, request, facts, code).None?
    ensures REFUSAL_KEY in facts && facts[REFUSAL_KEY] == Str(code) && Readable(vocabulary, request, facts)
    ensures forall k | k in facts && k in SelectRefusal(vocabulary, request).keys && k != REFUSAL_KEY ::
              Lawful(SelectRefusal(vocabulary, request).keys[k], facts[k])
  {
    hide Lawful; hide SelectRefusal;
    var shape := SelectRefusal(vocabulary, request);
    forall k | k in facts ensures k in shape.keys || k == REFUSAL_KEY {
      assert k in facts.Keys - {REFUSAL_KEY} || k == REFUSAL_KEY;
    }
    if shape.exact { assert facts.Keys == {REFUSAL_KEY}; }
  }

  lemma QualifiedIsReadable(vocabulary: ActionFacts, request: Request, facts: Named)
    requires ValidateQualified(vocabulary, request, facts).None?
    ensures REFUSAL_KEY !in facts && SelectEntry(vocabulary, request, facts).Some? && Readable(vocabulary, request, facts)
    ensures var e := SelectEntry(vocabulary, request, facts).value;
            forall k | k in facts && k in e.keys && k !in e.discriminators :: Lawful(e.keys[k], facts[k])
  {
    hide Lawful; hide Matching; hide ValidateForm; hide ValidateDefinitionEvent; hide SelectForm;
    var e := SelectEntry(vocabulary, request, facts).value;
    assert ValidateEntry(e, facts).None?;
    assert forall k | k in facts :: k in facts.Keys;
  }

  /** What acceptance means once the entry is known. */
  lemma QualifiedIff(vocabulary: ActionFacts, request: Request, facts: Named, e: Entry)
    requires SelectEntry(vocabulary, request, facts) == Some(e)
    ensures ValidateQualified(vocabulary, request, facts).None? <==>
              && REFUSAL_KEY !in facts && facts.Keys <= e.discriminators.Keys + e.keys.Keys
              && (e.exact ==> facts.Keys == e.discriminators.Keys + e.keys.Keys)
              && HasRequired(e, facts) && AllLawful(e, facts) && GroupsMet(e, facts) && CompanionsMet(e, facts)
              && ("y" in facts ==> Get(facts, "g").Str? && Get(facts, "g") != SENTINEL)
              && ValidateForm(vocabulary, e, request, facts).None? && ValidateDefinitionEvent(vocabulary, request, facts).None?
              && (e.proposeRole && IsOneOf(Get(facts, "k"), POLICIES) ==> NamesRole(request))
  {
    hide HasRequired; hide AllLawful; hide GroupsMet; hide CompanionsMet; hide ValidateForm;
    hide ValidateDefinitionEvent; hide SelectEntry;
  }

  // ---------------------------------------------------------------- one entry at most

  /** No content and no form can match both. */
  predicate Apart(e: Entry, f: Entry) {
    e.form != f.form || exists k :: k in e.discriminators && k in f.discriminators && e.discriminators[k] != f.discriminators[k]
  }

  ghost predicate PairwiseApart(entries: seq<Entry>) { forall i, j | 0 <= i < j < |entries| :: Apart(entries[i], entries[j]) }

  lemma {:induction false} AtMostOneMatches(entries: seq<Entry>, form: Form, content: Named)
    requires PairwiseApart(entries)
    ensures |Filter(entries, (e: Entry) => Matches(e, form, content))| <= 1
  {
    if entries != [] {
      var p := (e: Entry) => Matches(e, form, content);
      assert PairwiseApart(entries[1..]) by {
        forall i, j | 0 <= i < j < |entries| - 1 ensures Apart(entries[1..][i], entries[1..][j]) {
          assert Apart(entries[i + 1], entries[j + 1]);
        }
      }
      AtMostOneMatches(entries[1..], form, content);
      forall f | f in entries[1..] ensures !Matches(entries[0], form, content) || !Matches(f, form, content) {
        var j :| 0 <= j < |entries| - 1 && entries[1..][j] == f;
        assert Apart(entries[0], entries[j + 1]);
      }
      var rest := Filter(entries[1..], p);
      assert rest != [] ==> rest[0] in rest;
    }
  }
}
