/** The declared table: for every recorded action its selector, its qualified entries and its refusal shapes. The
    relation and the reference prefix of a key matter to the reader only and are not repeated here. */
module AuthorityTable {
  import opened Prelude
  import opened AuthorityFacts

  datatype Action =
    | FoundLivingOrganism | TransitionLivingOrganism | SubmitApplication | WithdrawApplication | ClaimApplication
    | ReassignApplication | DecideApplication | EffectApplicationSettings | EffectApplicationQuestion
    | EffectGovernanceConfiguration | EffectEntitlementElection | RecordEntitlementGrant | TransitionContextualRole
    | RecordRoleDefinition | RecordOfficeConsent | TransitionMembershipCondition | TransitionMembership | AdoptLaw
    | AdoptGoverningInstrument | CreateDormantCircle | RequestGovernanceSeat | AdmitCircleParticipant
    | Unrecorded(name: string)

  // ---------------------------------------------------------------- ways of writing keys

  function Must(kind: FactKind): FactKey { FactKey(kind, true, None) }
  function May(kind: FactKind): FactKey { FactKey(kind, false, None) }
  function MustBe(words: set<string>): FactKey { FactKey(Literal, true, Some(words)) }
  function MayBe(kind: FactKind, words: set<string>): FactKey { FactKey(kind, false, Some(words)) }

  function Plain(form: Form, discriminators: map<string, string>, keys: map<string, FactKey>): Entry {
    Entry(form, discriminators, keys, false, false, false, [], map[])
  }

  function Single(e: Entry, refusal: map<string, FactKey>): ActionFacts {
    ActionFacts(NoSelector, [e], map[NoForm := RefusalShape(refusal, false)])
  }

  function Undiscriminated(keys: map<string, FactKey>, refusal: map<string, FactKey>): ActionFacts {
    Single(Plain(NoForm, map[], keys), refusal)
  }

  const COORDINATOR: map<string, FactKey> := map["c" := Must(Ref), "m" := Must(Ref), "o" := Must(Ref), "s" := Must(Ref)]
  const CHANGES := {"FIRST_CONFIGURATION", "CQ_INACTIVE", "CHANGE_FLAG_NO"}
  const NOMINATIONS := {"SELF_PROPOSAL", "MEMBER_NOMINATION", "EFFECTIVE_COORDINATOR"}
  const BIRTHING: map<string, FactKey> :=
    map["c" := Must(Ref), "s" := Must(Ref), "q" := Must(Ref), "o" := Must(Ref), "n" := Must(Ref)]

  // ---------------------------------------------------------------- the entries of the larger rows

  const ELECTION_SNAPSHOT := Plain(Form("SNAPSHOT"), map["kind" := "BIRTHING"], BIRTHING).(exact := true)

  const ELECTION_GATEWAY :=
    Plain(Form("GATEWAY"), map[], COORDINATOR + map["t" := MustBe(CHANGES), "v" := Must(Ref)]).(exact := true)

  const PROPOSE :=
    Plain(Form("PROPOSE"), map[],
          map["m" := Must(Ref), "n" := Must(Ref), "t" := MustBe(NOMINATIONS), "k" := FactKey(PolicyK, true, Some(POLICIES)),
              "i" := Must(RefOrNull), "o" := May(Ref), "c" := May(Ref), "d" := MayBe(Ref, {"C"})])
    .(proposeRole := true, exactlyOne := [{"c", "d"}])

  const PROPOSE_DEFINITION :=
    Plain(Form("PROPOSE_DEFINITION"), map[],
          map["m" := Must(Ref), "n" := Must(Ref), "t" := MustBe(NOMINATIONS), "k" := FactKey(PolicyK, true, Some(POLICIES)),
              "i" := Must(RefOrNull), "o" := May(Ref), "z" := MayBe(Ref, {"CUSTOM_ROLES"}), "e" := May(Ref)])
    .(proposeRole := true, requiredWhen := map["t" := map["EFFECTIVE_COORDINATOR" := {"o"}]])

  const ROLE_TRANSITION :=
    Plain(Form("TRANSITION"), map[],
          map["a" := Must(Ref), "g" := Must(Ref), "y" := MayBe(Provision, {"AR"}), "k" := MustBe({"ASSIGN", "END", "REASSIGN"}),
              "o" := May(Ref), "p" := May(Ref), "u" := May(ConsentU)])
    .(requiredWhen := map["k" := map["ASSIGN" := {"p", "u"}]])

  const ROLE_TRANSITION_REFUSAL: map<string, FactKey> :=
    map["a" := May(Ref), "k" := MayBe(Literal, {"ASSIGN", "END", "REASSIGN"}),
        "o" := May(Ref), "p" := May(Ref), "u" := May(ConsentU)]

  function DefinitionEntry(form: string): Entry {
    var always: map<string, FactKey> := map["g" := Must(Ref), "c" := Must(Ref), "o" := Must(Ref)];
    Plain(Form(form), map[],
          if form == "RETIRE" then always else always + map["z" := MayBe(Ref, {"CUSTOM_ROLES"}), "i" := May(RefOrNull)])
  }

  const SEATING: map<string, FactKey> := map["c" := Must(Ref), "r" := Must(Ref), "s" := Must(Descriptive), "q" := Must(Ref)]

  // ---------------------------------------------------------------- the table

  function OrganismRow(action: Action): Option<ActionFacts> {
    match action
    case FoundLivingOrganism =>
      Some(Single(Plain(NoForm, map["kind" := "FOUNDING"],
                        map["rule" := Must(FoundingRule),
                            "registration" := Must(FoundingRegistration), "terms" := Must(FoundingTerms)])
                  .(foundingBlock := true), map[]))
    case TransitionLivingOrganism =>
      Some(ActionFacts(NoSelector,
        [Plain(NoForm, map["kind" := "PHASE_ADVANCE"],
               map["c" := Must(Ref), "o" := Must(Ref),
                   "f" := MustBe({"FORMATION_RULES:PLATFORM_DEFAULT@v1"}), "p" := Must(Descriptive)]),
         Plain(NoForm, map["kind" := "BIRTHING"], BIRTHING)],
        map[NoForm := RefusalShape(map["p" := May(Descriptive)], false)]))
    case EffectGovernanceConfiguration =>
      Some(Undiscriminated(
        map["c" := Must(Ref), "m" := Must(Ref), "o" := Must(Ref), "t" := MustBe(CHANGES), "v" := Must(Ref), "i" := May(Ref)],
        map["c" := May(Ref), "m" := May(Ref), "o" := May(Ref), "i" := May(RefOrNull), "v" := May(Ref)]))
    case EffectEntitlementElection =>
      Some(ActionFacts(ElectionTargetForm, [ELECTION_SNAPSHOT, ELECTION_GATEWAY],
        map[Form("SNAPSHOT") := RefusalShape(map["p" := May(Descriptive)], false),
            Form("GATEWAY") := RefusalShape(map[], true),
            NoForm := RefusalShape(map["p" := May(Descriptive)], false)]))
    case RecordEntitlementGrant => Some(Undiscriminated(map[], map[]))
    case _ => None
  }

  function ApplicationRow(action: Action): Option<ActionFacts> {
    match action
    case SubmitApplication =>
      Some(Undiscriminated(
        map["b" := Must(Ref), "c" := Must(Ref), "q" := Must(Ref), "r" := Must(Ref), "s" := Must(Ref), "p" := May(Ref)],
        map["b" := May(RefOrNull)]))
    case WithdrawApplication =>
      Some(Undiscriminated(map["a" := Must(Ref), "t" := MustBe({"NONE", "LO_CSA", "LO_AUTOMATIC"})], map[]))
    case ClaimApplication =>
      Some(Undiscriminated(COORDINATOR + map["k" := MustBe({"C"}), "t" := MustBe({"CQ_INACTIVE", "SOLE_COORDINATOR"})], map[]))
    case ReassignApplication => Some(Undiscriminated(COORDINATOR + map["a" := Must(Ref), "e" := Must(Engagement)], map[]))
    case DecideApplication => Some(Undiscriminated(COORDINATOR + map["a" := Must(Ref), "e" := Must(Engagement)], map[]))
    case EffectApplicationSettings => Some(Undiscriminated(COORDINATOR + map["t" := MustBe(CHANGES), "v" := Must(Ref)], map[]))
    case EffectApplicationQuestion => Some(Undiscriminated(COORDINATOR + map["t" := MustBe(CHANGES), "v" := Must(Ref)], map[]))
    case _ => None
  }

  function RoleRow(action: Action): Option<ActionFacts> {
    match action
    case TransitionContextualRole =>
      Some(ActionFacts(RoleEventAction, [PROPOSE, PROPOSE_DEFINITION, ROLE_TRANSITION],
        map[Form("PROPOSE") := RefusalShape(map[], false), Form("PROPOSE_DEFINITION") := RefusalShape(map[], false),
            Form("TRANSITION") := RefusalShape(ROLE_TRANSITION_REFUSAL, false)]))
    case RecordRoleDefinition =>
      Some(ActionFacts(DefinitionEventAction, [DefinitionEntry("DEFINE"), DefinitionEntry("AMEND"), DefinitionEntry("RETIRE")],
        map[Form("DEFINE") := RefusalShape(map[], true), Form("AMEND") := RefusalShape(map[], true),
            Form("RETIRE") := RefusalShape(map[], true)]))
    case RecordOfficeConsent =>
      Some(Undiscriminated(
        map["a" := Must(Ref), "p" := Must(Ref), "g" := Must(Ref), "k" := MustBe({"CONSENT", "DECLINE", "WITHDRAW"}),
            "u" := Must(Ref), "w" := May(ConsentW)],
        map["a" := May(Ref), "p" := May(Ref), "w" := May(ConsentW), "o" := May(Ref)]))
    case TransitionMembershipCondition => Some(Undiscriminated(map["q" := Must(Ref)], map[]))
    case TransitionMembership =>
      Some(Undiscriminated(map["k" := MustBe({"MEMBERSHIP_DEPARTURE"}), "m" := Must(Ref)], map["o" := May(Ref)]))
    case _ => None
  }

  function GovernanceRow(action: Action): Option<ActionFacts> {
    match action
    case AdoptLaw =>
      Some(Single(Plain(NoForm, map["kind" := "LAW_VERSION"],
        map["route" := MustBe({"FOUNDER_STEWARD", "FOUNDER_CONSTITUTIVE", "COORDINATOR_ROUTE", "SOLE_MEMBER_COORDINATOR",
                               "UNANIMOUS_PAIR", "GOVERNANCE_INTERIM"})]), map[]))
    case AdoptGoverningInstrument =>
      Some(Single(Plain(NoForm, map["kind" := "GOVERNANCE_CONSTITUTION"],
        map["g" := Must(Ref), "source" := MustBe({"LO_PRESCRIPTION", "FOUNDING_BODY_PRESCRIPTION"})]), map[]))
    case CreateDormantCircle => Some(Single(Plain(NoForm, map["kind" := "GOVERNANCE"], map["c" := Must(Ref)]), map[]))
    case RequestGovernanceSeat =>
      Some(Single(Plain(NoForm, map["kind" := "GOVERNANCE_SEAT_REQUEST"],
        map["c" := Must(Ref), "r" := Must(Ref), "s" := Must(Descriptive)]), map[]))
    case AdmitCircleParticipant =>
      Some(ActionFacts(NoSelector,
        [Plain(NoForm, map["kind" := "GOVERNANCE", "route" := "CIRCLE_FOUNDING"], SEATING),
         Plain(NoForm, map["kind" := "GOVERNANCE", "route" := "GOVERNANCE_CONSTITUTIONAL"],
               SEATING + map["constitutional_route" := MustBe({"APPOINTMENT"})])],
        map[NoForm := RefusalShape(map[], false)]))
    case _ => None
  }

  /** `S015_AUTHORITY_FACTS`. An action without a row admits the bare refusal only. */
  function RowOf(action: Action): Option<ActionFacts> {
    if OrganismRow(action).Some? then OrganismRow(action)
    else if ApplicationRow(action).Some? then ApplicationRow(action)
    else if RoleRow(action).Some? then RoleRow(action)
    else GovernanceRow(action)
  }

  // ---------------------------------------------------------------- what the table guarantees

  lemma ElectionApart()
    ensures PairwiseApart([ELECTION_SNAPSHOT, ELECTION_GATEWAY])
  {
    assert ELECTION_SNAPSHOT.form != ELECTION_GATEWAY.form;
  }

  lemma RolesApart()
    ensures PairwiseApart([PROPOSE, PROPOSE_DEFINITION, ROLE_TRANSITION])
  {
    assert PROPOSE.form.name[0] == 'P' && ROLE_TRANSITION.form.name[0] == 'T';
    assert |PROPOSE.form.name| != |PROPOSE_DEFINITION.form.name|;
  }

  lemma DefinitionsApart()
    ensures PairwiseApart([DefinitionEntry("DEFINE"), DefinitionEntry("AMEND"), DefinitionEntry("RETIRE")])
  {
    assert "DEFINE"[0] == 'D' && "AMEND"[0] == 'A' && "RETIRE"[0] == 'R';
  }

  lemma SeatingsApart(e: Entry, f: Entry)
    requires "route" in e.discriminators && "route" in f.discriminators && e.discriminators["route"] != f.discriminators["route"]
    ensures PairwiseApart([e, f])
  {
  }

  lemma KindsApart(e: Entry, f: Entry)
    requires "kind" in e.discriminators && "kind" in f.discriminators && e.discriminators["kind"] != f.discriminators["kind"]
    ensures PairwiseApart([e, f])
  {
  }

  lemma OrganismApart(action: Action)
    ensures OrganismRow(action).Some? ==> PairwiseApart(OrganismRow(action).value.entries)
  {
    hide Apart; hide PairwiseApart; hide Must; hide May; hide MustBe; hide MayBe;
    if action == EffectEntitlementElection {
      ElectionApart();
    } else if OrganismRow(action).Some? {
      var entries := OrganismRow(action).value.entries;
      if action == TransitionLivingOrganism {
        assert "PHASE_ADVANCE"[0] == 'P' && "BIRTHING"[0] == 'B';
        KindsApart(entries[0], entries[1]);
        assert entries == [entries[0], entries[1]];
      } else {
        OneEntryIsApart(entries);
      }
    }
  }

  lemma ApplicationApart(action: Action)
    ensures ApplicationRow(action).Some? ==> PairwiseApart(ApplicationRow(action).value.entries)
  {
    hide Apart; hide PairwiseApart; hide Must; hide May; hide MustBe; hide MayBe;
    if ApplicationRow(action).Some? { OneEntryIsApart(ApplicationRow(action).value.entries); }
  }

  lemma RoleApart(action: Action)
    ensures RoleRow(action).Some? ==> PairwiseApart(RoleRow(action).value.entries)
  {
    hide Apart; hide PairwiseApart; hide Must; hide May; hide MustBe; hide MayBe; hide DefinitionEntry;
    RolesApart();
    DefinitionsApart();
    if RoleRow(action).Some? { OneEntryIsApart(RoleRow(action).value.entries); }
  }

  lemma GovernanceApart(action: Action)
    ensures GovernanceRow(action).Some? ==> PairwiseApart(GovernanceRow(action).value.entries)
  {
    hide Apart; hide PairwiseApart; hide Must; hide May; hide MustBe; hide MayBe;
    if GovernanceRow(action).Some? {
      var entries := GovernanceRow(action).value.entries;
      OneEntryIsApart(entries);
      if action == AdmitCircleParticipant {
        assert "CIRCLE_FOUNDING"[0] == 'C' && "GOVERNANCE_CONSTITUTIONAL"[0] == 'G';
        SeatingsApart(entries[0], entries[1]);
        assert entries == [entries[0], entries[1]];
      }
    }
  }

  lemma EntriesAreApart(action: Action)
    requires RowOf(action).Some?
    ensures PairwiseApart(RowOf(action).value.entries)
  {
    hide PairwiseApart; hide OrganismRow; hide ApplicationRow; hide RoleRow; hide GovernanceRow;
    OrganismApart(action);
    ApplicationApart(action);
    RoleApart(action);
    GovernanceApart(action);
  }

  lemma OneEntryIsApart(entries: seq<Entry>)
    ensures |entries| <= 1 ==> PairwiseApart(entries)
  {
  }

  /** For every action, form and content at most one entry of the table matches, so a reference is never
      ambiguous: it is read under the one entry that fits, or refused. */
  lemma AtMostOneEntry(action: Action, request: Request, content: Named, e: Entry)
    requires RowOf(action).Some?
    ensures var row := RowOf(action).value;
            && |Matching(row, SelectForm(row, request), content)| <= 1
            && (SelectEntry(row, request, content) == Some(e)
                <==> e in row.entries && Matches(e, SelectForm(row, request), content))
  {
    hide RowOf; hide SelectForm; hide Matches; hide PairwiseApart;
    var row := RowOf(action).value;
    var form := SelectForm(row, request);
    EntriesAreApart(action);
    AtMostOneMatches(row.entries, form, content);
    assert Matching(row, form, content) == Filter(row.entries, (x: Entry) => Matches(x, form, content));
    if e in row.entries && Matches(e, form, content) { assert e in Matching(row, form, content); }
  }

  const ROLES: ActionFacts := RoleRow(TransitionContextualRole).value

  /** The one entry of the role action for each form. */
  lemma RoleEntry(request: Request, facts: Named, e: Entry)
    requires e in {PROPOSE, PROPOSE_DEFINITION, ROLE_TRANSITION} && e.form == RoleEventForm(request)
    ensures SelectEntry(ROLES, request, facts) == Some(e)
  {
    hide RoleEventForm; hide SelectEntry; hide Matching;
    hide Must; hide May; hide MustBe; hide MayBe; hide DefinitionEntry;
    AtMostOneEntry(TransitionContextualRole, request, facts, e);
    assert RowOf(TransitionContextualRole) == Some(ROLES);
  }

  predicate IsText(facts: Named, key: string) { key in facts ==> facts[key].Str? }

  /** The role that a proposal is for is named by a text or an identifier. */
  predicate RoleIsNamed(request: Request) {
    request.target.Some? && "role_definition_uuid" in request.target.value
    && (request.target.value["role_definition_uuid"].Str? || request.target.value["role_definition_uuid"].Uuid?)
  }

  lemma NamesRoleIff(request: Request)
    ensures NamesRole(request) <==> RoleIsNamed(request)
  {
  }

  /** Exactly which proposals the producer may report: the declared keys and no other, texts for references, a lawful
      topic, a policy letter, exactly one of configuration and default beneath it, and a target that names the role. */
  lemma ProposalsAreGrounded(request: Request, facts: Named)
    requires RoleEventForm(request) == Form("PROPOSE")
    ensures ValidateQualified(ROLES, request, facts).None? <==>
              && {"m", "n", "t", "k", "i"} <= facts.Keys <= {"m", "n", "t", "k", "i", "o", "c", "d"}
              && IsText(facts, "m") && IsText(facts, "n") && IsText(facts, "o") && IsText(facts, "c")
              && IsOneOf(facts["t"], {"SELF_PROPOSAL", "MEMBER_NOMINATION", "EFFECTIVE_COORDINATOR"})
              && IsOneOf(facts["k"], {"A", "B", "C"}) && (facts["i"] == Null || facts["i"].Str?)
              && (("c" in facts) != ("d" in facts)) && ("d" in facts ==> facts["d"] == Str("C"))
              && RoleIsNamed(request)
  {
    hide ValidateQualified; hide SelectEntry; hide RoleEventForm; hide NamesRole; hide ROLES;
    hide ValidateForm; hide ValidateDefinitionEvent; hide GroupsMet; hide HasRequired; hide AllLawful; hide CompanionsMet;
    hide IsText; hide RoleIsNamed;
    RoleEntry(request, facts, PROPOSE);
    QualifiedIff(ROLES, request, facts, PROPOSE);
    NoFormChecks(PROPOSE, request, facts);
    ProposeGroup(facts);
    ProposeKeys(facts);
    NamesRoleIff(request);
  }

  /** Only a proposal under a definition is checked against the definition's target, and only the definition action
      has checks of its own. */
  lemma NoFormChecks(e: Entry, request: Request, facts: Named)
    requires RoleEventForm(request) != Form("PROPOSE_DEFINITION")
    ensures ValidateForm(ROLES, e, request, facts).None? && ValidateDefinitionEvent(ROLES, request, facts).None?
  {
    hide RoleEventForm;
  }

  lemma ProposeGroup(facts: Named)
    ensures GroupsMet(PROPOSE, facts) <==> (("c" in facts) != ("d" in facts))
    ensures CompanionsMet(PROPOSE, facts)
  {
    assert PROPOSE.exactlyOne == [{"c", "d"}];
    assert {"c", "d"} in PROPOSE.exactlyOne;
    ExactlyOneOf(facts.Keys, "c", "d");
  }

  /** The value under a key, if it is there, is lawful. */
  predicate LawfulAt(facts: Named, key: string, spec: FactKey) { key in facts ==> Lawful(spec, facts[key]) }

  lemma ReferencesAreText(facts: Named, key: string)
    ensures LawfulAt(facts, key, Must(Ref)) <==> IsText(facts, key)
    ensures LawfulAt(facts, key, May(Ref)) <==> IsText(facts, key)
  {
  }

  lemma WordsAre(facts: Named, key: string, words: set<string>)
    ensures LawfulAt(facts, key, MustBe(words)) <==> (key in facts ==> IsOneOf(facts[key], words))
    ensures LawfulAt(facts, key, MayBe(Ref, words)) <==> (key in facts ==> IsOneOf(facts[key], words))
    ensures LawfulAt(facts, key, FactKey(PolicyK, true, Some(words))) <==> (key in facts ==> IsOneOf(facts[key], words))
    ensures LawfulAt(facts, key, Must(RefOrNull)) <==> (key in facts ==> facts[key] == Null || facts[key].Str?)
    ensures LawfulAt(facts, key, May(RefOrNull)) <==> (key in facts ==> facts[key] == Null || facts[key].Str?)
  {
  }

  lemma OneWord(v: Value, word: string)
    ensures IsOneOf(v, {word}) <==> v == Str(word)
  {
  }

  lemma ProposeParts(facts: Named)
    requires facts.Keys <= {"m", "n", "t", "k", "i", "o", "c", "d"}
    ensures AllLawful(PROPOSE, facts) <==>
              && LawfulAt(facts, "m", Must(Ref)) && LawfulAt(facts, "n", Must(Ref)) && LawfulAt(facts, "t", MustBe(NOMINATIONS))
              && LawfulAt(facts, "k", FactKey(PolicyK, true, Some(POLICIES))) && LawfulAt(facts, "i", Must(RefOrNull))
              && LawfulAt(facts, "o", May(Ref)) && LawfulAt(facts, "c", May(Ref)) && LawfulAt(facts, "d", MayBe(Ref, {"C"}))
  {
    hide Lawful; hide Must; hide May; hide MustBe; hide MayBe;
    forall k | k in facts ensures k in {"m", "n", "t", "k", "i", "o", "c", "d"} { assert k in facts.Keys; }
  }

  lemma ProposeKeys(facts: Named)
    ensures PROPOSE.discriminators.Keys + PROPOSE.keys.Keys == {"m", "n", "t", "k", "i", "o", "c", "d"} && !PROPOSE.exact && PROPOSE.proposeRole
    ensures HasRequired(PROPOSE, facts) <==> {"m", "n", "t", "k", "i"} <= facts.Keys
    ensures {"m", "n", "t", "k", "i"} <= facts.Keys <= {"m", "n", "t", "k", "i", "o", "c", "d"} ==>
              (AllLawful(PROPOSE, facts) <==>
                 && IsText(facts, "m") && IsText(facts, "n") && IsText(facts, "o") && IsText(facts, "c")
                 && IsOneOf(facts["t"], {"SELF_PROPOSAL", "MEMBER_NOMINATION", "EFFECTIVE_COORDINATOR"})
                 && IsOneOf(facts["k"], {"A", "B", "C"}) && (facts["i"] == Null || facts["i"].Str?)
                 && ("d" in facts ==> facts["d"] == Str("C")))
  {
    ProposeShape(facts);
    if {"m", "n", "t", "k", "i"} <= facts.Keys <= {"m", "n", "t", "k", "i", "o", "c", "d"} {
      hide AllLawful; hide HasRequired; hide LawfulAt; hide IsText; hide IsOneOf;
      ProposeParts(facts);
      ReferencesAreText(facts, "m"); ReferencesAreText(facts, "n"); ReferencesAreText(facts, "o"); ReferencesAreText(facts, "c");
      WordsAre(facts, "t", NOMINATIONS);
      WordsAre(facts, "k", POLICIES);
      WordsAre(facts, "i", {});
      WordsAre(facts, "d", {"C"});
      if "d" in facts { OneWord(facts["d"], "C"); }
    }
  }

  lemma ProposeShape(facts: Named)
    ensures PROPOSE.discriminators.Keys + PROPOSE.keys.Keys == {"m", "n", "t", "k", "i", "o", "c", "d"} && !PROPOSE.exact && PROPOSE.proposeRole
    ensures HasRequired(PROPOSE, facts) <==> {"m", "n", "t", "k", "i"} <= facts.Keys
  {
  }

  lemma ExactlyOneOf(present: set<string>, a: string, b: string)
    requires a != b
    ensures |{a, b} * present| == 1 <==> (a in present) != (b in present)
  {
    if a in present && b in present { assert {a, b} * present == {a, b}; }
    if a !in present && b !in present { assert {a, b} * present == {}; }
    if a in present && b !in present { assert {a, b} * present == {a}; }
    if a !in present && b in present { assert {a, b} * present == {b}; }
  }

  // ---------------------------------------------------------------- proposals under a definition

  predicate IsReal(facts: Named, key: string) { key in facts ==> facts[key].Str? && facts[key].s != "-" }

  /** Exactly which proposals under a role definition the producer may report: real references, a lawful topic with the
      coordinator's office where one acts, and evidence that fits what the target states of the definition. */
  lemma DefinitionProposalsAreGrounded(request: Request, facts: Named)
    requires RoleEventForm(request) == Form("PROPOSE_DEFINITION")
    ensures ValidateQualified(ROLES, request, facts).None? <==>
              && {"m", "n", "t", "k", "i"} <= facts.Keys <= {"m", "n", "t", "k", "i", "o", "z", "e"}
              && IsReal(facts, "m") && IsReal(facts, "n") && IsReal(facts, "o") && IsReal(facts, "e")
              && IsOneOf(facts["t"], {"SELF_PROPOSAL", "MEMBER_NOMINATION", "EFFECTIVE_COORDINATOR"})
              && (facts["t"] == Str("EFFECTIVE_COORDINATOR") ==> "o" in facts)
              && IsOneOf(facts["k"], {"A", "B", "C"}) && (facts["i"] == Null || facts["i"].Str?)
              && ("z" in facts ==> facts["z"] == Str("CUSTOM_ROLES"))
              && RoleIsNamed(request) && FitsDefinition(facts, request.target.value)
  {
    hide ValidateQualified; hide SelectEntry; hide RoleEventForm; hide NamesRole; hide ROLES; hide ValidateForm;
    hide ValidateDefinitionEvent; hide GroupsMet; hide HasRequired; hide AllLawful; hide CompanionsMet;
    hide IsText; hide IsReal; hide RoleIsNamed; hide FitsDefinition; hide IsOneOf; hide ValidateNomination;
    RoleEntry(request, facts, PROPOSE_DEFINITION);
    QualifiedIff(ROLES, request, facts, PROPOSE_DEFINITION);
    DefinitionShape(facts);
    DefinitionKeys(facts);
    NamesRoleIff(request);
    if RoleIsNamed(request) { NamedTarget(request); }
    if {"m", "n", "t", "k", "i"} <= facts.Keys <= {"m", "n", "t", "k", "i", "o", "z", "e"} {
      DefinitionForm(request, facts);
      if AllLawful(PROPOSE_DEFINITION, facts) && Get(facts, "e") != SENTINEL { NominationIff(facts, TargetOf(request)); }
      RealIsText(facts, "m"); RealIsText(facts, "n"); RealIsText(facts, "o"); RealIsText(facts, "e");
    }
  }

  lemma RealIsText(facts: Named, key: string)
    ensures IsReal(facts, key) <==> IsText(facts, key) && Get(facts, key) != SENTINEL
  {
  }

  lemma NamedTarget(request: Request)
    requires RoleIsNamed(request)
    ensures request.target.Some? && TargetOf(request) == request.target.value
  {
  }

  /** What a target states of the definition, and the evidence for it: participation exactly when it is required, the
      custom-role entitlement exactly for a custom role, and the nominee's entitlement exactly where a silent basis
      with policy A or B asks for it. What the target does not state is not checked. */
  predicate FitsDefinition(facts: Named, target: Named) {
    && ("participation_required" in target ==> ("e" in facts <==> target["participation_required"] == Bool(true)))
    && ("kind" in target ==> ("z" in facts <==> target["kind"] == Str("CUSTOM")))
    && ("nomination_basis" in target ==>
          if target["nomination_basis"] == Str("SILENT") && Get(facts, "k") in {Str("A"), Str("B")}
          then Get(facts, "i").Str? && Get(facts, "i").s != "" && Get(facts, "i").s != "-"
          else Get(facts, "i") == Null)
  }

  lemma NominationIff(facts: Named, target: Named)
    requires "z" in facts ==> facts["z"] == Str("CUSTOM_ROLES")
    requires Get(facts, "e") != SENTINEL
    ensures ValidateNomination(facts, target).None? <==> FitsDefinition(facts, target)
  {
  }

  lemma DefinitionShape(facts: Named)
    ensures PROPOSE_DEFINITION.discriminators.Keys + PROPOSE_DEFINITION.keys.Keys == {"m", "n", "t", "k", "i", "o", "z", "e"}
    ensures !PROPOSE_DEFINITION.exact && PROPOSE_DEFINITION.proposeRole && GroupsMet(PROPOSE_DEFINITION, facts)
    ensures HasRequired(PROPOSE_DEFINITION, facts) <==> {"m", "n", "t", "k", "i"} <= facts.Keys
    ensures CompanionsMet(PROPOSE_DEFINITION, facts) <==> (Get(facts, "t") == Str("EFFECTIVE_COORDINATOR") ==> "o" in facts)
  {
    var needs := PROPOSE_DEFINITION.requiredWhen;
    assert needs == map["t" := map["EFFECTIVE_COORDINATOR" := {"o"}]] && "t" in needs && "EFFECTIVE_COORDINATOR" in needs["t"];
    assert CompanionsMet(PROPOSE_DEFINITION, facts) <==> CompanionsPresent(needs["t"], Get(facts, "t"), facts.Keys);
  }

  lemma DefinitionParts(facts: Named)
    requires facts.Keys <= {"m", "n", "t", "k", "i", "o", "z", "e"}
    ensures AllLawful(PROPOSE_DEFINITION, facts) <==>
              && LawfulAt(facts, "m", Must(Ref)) && LawfulAt(facts, "n", Must(Ref)) && LawfulAt(facts, "t", MustBe(NOMINATIONS))
              && LawfulAt(facts, "k", FactKey(PolicyK, true, Some(POLICIES))) && LawfulAt(facts, "i", Must(RefOrNull))
              && LawfulAt(facts, "o", May(Ref)) && LawfulAt(facts, "z", MayBe(Ref, {"CUSTOM_ROLES"})) && LawfulAt(facts, "e", May(Ref))
  {
    hide Lawful; hide Must; hide May; hide MustBe; hide MayBe;
    forall k | k in facts ensures k in {"m", "n", "t", "k", "i", "o", "z", "e"} { assert k in facts.Keys; }
  }

  lemma DefinitionKeys(facts: Named)
    ensures {"m", "n", "t", "k", "i"} <= facts.Keys <= {"m", "n", "t", "k", "i", "o", "z", "e"} ==>
              (AllLawful(PROPOSE_DEFINITION, facts) <==>
                 && IsText(facts, "m") && IsText(facts, "n") && IsText(facts, "o") && IsText(facts, "e")
                 && IsOneOf(facts["t"], {"SELF_PROPOSAL", "MEMBER_NOMINATION", "EFFECTIVE_COORDINATOR"})
                 && IsOneOf(facts["k"], {"A", "B", "C"}) && (facts["i"] == Null || facts["i"].Str?)
                 && ("z" in facts ==> facts["z"] == Str("CUSTOM_ROLES")))
  {
    if {"m", "n", "t", "k", "i"} <= facts.Keys <= {"m", "n", "t", "k", "i", "o", "z", "e"} {
      hide AllLawful; hide HasRequired; hide LawfulAt; hide IsText; hide IsOneOf;
      DefinitionParts(facts);
      ReferencesAreText(facts, "m"); ReferencesAreText(facts, "n"); ReferencesAreText(facts, "o"); ReferencesAreText(facts, "e");
      WordsAre(facts, "t", NOMINATIONS);
      WordsAre(facts, "k", POLICIES);
      WordsAre(facts, "i", {});
      WordsAre(facts, "z", {"CUSTOM_ROLES"});
      if "z" in facts { OneWord(facts["z"], "CUSTOM_ROLES"); }
    }
  }

  lemma DefinitionForm(request: Request, facts: Named)
    requires RoleEventForm(request) == Form("PROPOSE_DEFINITION")
    ensures ValidateForm(ROLES, PROPOSE_DEFINITION, request, facts).None? <==>
              && (forall k | k in {"m", "n", "o", "e"} :: Get(facts, k) != SENTINEL)
              && ValidateNomination(facts, TargetOf(request)).None?
    ensures ValidateDefinitionEvent(ROLES, request, facts).None?
  {
    hide RoleEventForm; hide TargetOf; hide ValidateNomination;
    var keys := PROPOSE_DEFINITION.keys;
    assert forall k :: k in keys && keys[k].kind == Ref && keys[k].literals.None? <==> k in {"m", "n", "o", "e"};
  }

  // ---------------------------------------------------------------- transitions

  /** Exactly which transitions of a role the producer may report: references, one of three kinds, an assignment with its
      proposal and a consent, and alternative-route evidence only with a real definition. */
  lemma AssignmentsAreConsented(request: Request, facts: Named)
    requires RoleEventForm(request) == Form("TRANSITION")
    ensures ValidateQualified(ROLES, request, facts).None? <==>
              && {"a", "g", "k"} <= facts.Keys <= {"a", "g", "y", "k", "o", "p", "u"}
              && IsText(facts, "a") && IsText(facts, "g") && IsText(facts, "o") && IsText(facts, "p")
              && IsOneOf(facts["k"], {"ASSIGN", "END", "REASSIGN"})
              && (facts["k"] == Str("ASSIGN") ==> "p" in facts && "u" in facts)
              && ("u" in facts ==> facts["u"].Str? && |facts["u"].s| >= 2 && facts["u"].s[..2] in {"c:", "e:"})
              && ("y" in facts ==> facts["y"] == Str("AR") && facts["g"] != Str("-"))
  {
    hide ValidateQualified; hide SelectEntry; hide RoleEventForm; hide NamesRole; hide ROLES; hide ValidateForm;
    hide ValidateDefinitionEvent; hide GroupsMet; hide HasRequired; hide AllLawful; hide CompanionsMet;
    hide IsOneOf;
    RoleEntry(request, facts, ROLE_TRANSITION);
    QualifiedIff(ROLES, request, facts, ROLE_TRANSITION);
    FormsDiffer();
    NoFormChecks(ROLE_TRANSITION, request, facts);
    TransitionShape(facts);
    TransitionKeys(facts);
  }

  lemma FormsDiffer()
    ensures Form("TRANSITION") != Form("PROPOSE_DEFINITION") && Form("PROPOSE") != Form("PROPOSE_DEFINITION")
  {
    assert "TRANSITION"[0] == 'T' && "PROPOSE_DEFINITION"[0] == 'P' && |"PROPOSE"| == 7 && |"PROPOSE_DEFINITION"| == 18;
  }

  lemma TransitionShape(facts: Named)
    ensures ROLE_TRANSITION.discriminators.Keys + ROLE_TRANSITION.keys.Keys == {"a", "g", "y", "k", "o", "p", "u"}
    ensures !ROLE_TRANSITION.exact && !ROLE_TRANSITION.proposeRole && GroupsMet(ROLE_TRANSITION, facts)
    ensures HasRequired(ROLE_TRANSITION, facts) <==> {"a", "g", "k"} <= facts.Keys
    ensures CompanionsMet(ROLE_TRANSITION, facts) <==> (Get(facts, "k") == Str("ASSIGN") ==> "p" in facts && "u" in facts)
  {
    var needs := ROLE_TRANSITION.requiredWhen;
    assert needs == map["k" := map["ASSIGN" := {"p", "u"}]] && "k" in needs && "ASSIGN" in needs["k"];
    assert CompanionsMet(ROLE_TRANSITION, facts) <==> CompanionsPresent(needs["k"], Get(facts, "k"), facts.Keys);
  }

  lemma TransitionParts(facts: Named)
    requires facts.Keys <= {"a", "g", "y", "k", "o", "p", "u"}
    ensures AllLawful(ROLE_TRANSITION, facts) <==>
              && LawfulAt(facts, "a", Must(Ref)) && LawfulAt(facts, "g", Must(Ref)) && LawfulAt(facts, "y", MayBe(Provision, {"AR"}))
              && LawfulAt(facts, "k", MustBe({"ASSIGN", "END", "REASSIGN"})) && LawfulAt(facts, "o", May(Ref))
              && LawfulAt(facts, "p", May(Ref)) && LawfulAt(facts, "u", May(ConsentU))
  {
    hide Lawful; hide Must; hide May; hide MustBe; hide MayBe;
    forall k | k in facts ensures k in {"a", "g", "y", "k", "o", "p", "u"} { assert k in facts.Keys; }
  }

  lemma EvidenceIs(facts: Named)
    ensures LawfulAt(facts, "y", MayBe(Provision, {"AR"})) <==> ("y" in facts ==> facts["y"] == Str("AR"))
    ensures LawfulAt(facts, "u", May(ConsentU))
            <==> ("u" in facts ==> facts["u"].Str? && |facts["u"].s| >= 2 && facts["u"].s[..2] in {"c:", "e:"})
  {
  }

  lemma TransitionKeys(facts: Named)
    ensures {"a", "g", "k"} <= facts.Keys <= {"a", "g", "y", "k", "o", "p", "u"} ==>
              (AllLawful(ROLE_TRANSITION, facts) <==>
                 && IsText(facts, "a") && IsText(facts, "g") && IsText(facts, "o") && IsText(facts, "p")
                 && IsOneOf(facts["k"], {"ASSIGN", "END", "REASSIGN"})
                 && ("u" in facts ==> facts["u"].Str? && |facts["u"].s| >= 2 && facts["u"].s[..2] in {"c:", "e:"})
                 && ("y" in facts ==> facts["y"] == Str("AR")))
  {
    if {"a", "g", "k"} <= facts.Keys <= {"a", "g", "y", "k", "o", "p", "u"} {
      hide AllLawful; hide HasRequired; hide LawfulAt; hide IsText; hide IsOneOf;
      TransitionParts(facts);
      ReferencesAreText(facts, "a"); ReferencesAreText(facts, "g"); ReferencesAreText(facts, "o"); ReferencesAreText(facts, "p");
      WordsAre(facts, "k", {"ASSIGN", "END", "REASSIGN"});
      EvidenceIs(facts);
    }
  }

  // ---------------------------------------------------------------- which form a role event has

  /** The form of a role event, from its target; a proposal from an unknown source has none, and nothing qualified may be
      reported of it. */
  lemma RoleForms(request: Request, facts: Named)
    ensures var t := TargetOf(request); var proposes := "event_action" in t && t["event_action"] == Str("PROPOSE");
            var source := if "nomination_rule_source" in t then t["nomination_rule_source"] else Str("CONFIGURATION");
            && (RoleEventForm(request) == Form("TRANSITION") <==> !proposes)
            && (RoleEventForm(request) == Form("PROPOSE") <==> proposes && source == Str("CONFIGURATION"))
            && (RoleEventForm(request) == Form("PROPOSE_DEFINITION") <==> proposes && source == Str("DEFINITION"))
            && (proposes && source !in {Str("CONFIGURATION"), Str("DEFINITION")} ==> ValidateQualified(ROLES, request, facts).Some?)
  {
    FormsDiffer();
    SourcesDiffer();
    if RoleEventForm(request) == NoForm { NoEntry(request, facts); }
  }

  lemma SourcesDiffer()
    ensures Str("CONFIGURATION") != Str("DEFINITION") && Form("TRANSITION") != Form("PROPOSE")
  {
    assert "CONFIGURATION"[0] == 'C' && "DEFINITION"[0] == 'D' && "TRANSITION"[0] == 'T' && "PROPOSE"[0] == 'P';
  }

  lemma NoEntry(request: Request, facts: Named)
    requires RoleEventForm(request) == NoForm
    ensures ValidateQualified(ROLES, request, facts).Some?
  {
    hide RoleEventForm;
    assert forall e | e in ROLES.entries :: !Matches(e, NoForm, facts);
    LeadingElement(Matching(ROLES, NoForm, facts));
  }

  // ---------------------------------------------------------------- role definitions

  const DEFINITIONS: ActionFacts := RoleRow(RecordRoleDefinition).value

  lemma DefinitionEventEntry(request: Request, facts: Named, form: string)
    requires form in {"DEFINE", "AMEND", "RETIRE"} && SelectForm(DEFINITIONS, request) == Form(form)
    ensures SelectEntry(DEFINITIONS, request, facts) == Some(DefinitionEntry(form))
  {
    hide SelectForm; hide SelectEntry; hide Matching;
    hide Must; hide May; hide MustBe; hide MayBe;
    AtMostOneEntry(RecordRoleDefinition, request, facts, DefinitionEntry(form));
    assert RowOf(RecordRoleDefinition) == Some(DEFINITIONS);
  }

  /** Exactly which recorded definitions the producer may report: the steward's consent and office and, but for a new
      definition, the definition itself as real references; the custom-role entitlement exactly for a custom role; and a
      nominee's entitlement only for a silent basis with policy A or B. */
  lemma DefinitionsAreGrounded(request: Request, facts: Named, form: string)
    requires form in {"DEFINE", "AMEND", "RETIRE"} && request.target.Some? && Get(request.target.value, "event_action") == Str(form)
    ensures var target := request.target.value;
            ValidateQualified(DEFINITIONS, request, facts).None? <==>
              && {"g", "c", "o"} <= facts.Keys <= {"g", "c", "o"} + (if form == "RETIRE" then {} else {"z", "i"})
              && IsText(facts, "g") && IsReal(facts, "c") && IsReal(facts, "o") && (form != "DEFINE" ==> IsReal(facts, "g"))
              && ("z" in facts ==> facts["z"] == Str("CUSTOM_ROLES")) && ("i" in facts ==> facts["i"] == Null || facts["i"].Str?)
              && (form != "RETIRE" ==>
                    && ("z" in facts <==> Get(target, "kind") == Str("CUSTOM"))
                    && ("i" in facts ==> Get(target, "nomination_basis") == Str("SILENT") && Get(target, "kind") != Str("CUSTOM")
                                         && Get(target, "nomination_policy") in {Str("A"), Str("B")}))
  {
    hide ValidateQualified; hide SelectEntry; hide DEFINITIONS; hide ValidateForm; hide ValidateDefinitionEvent;
    hide GroupsMet; hide HasRequired; hide AllLawful; hide CompanionsMet; hide IsText; hide IsReal; hide DefinitionEntry;
    EventForm(request, form);
    DefinitionEventEntry(request, facts, form);
    QualifiedIff(DEFINITIONS, request, facts, DefinitionEntry(form));
    EventShape(facts, form);
    EventKeys(facts, form);
    RealIsText(facts, "g"); RealIsText(facts, "c"); RealIsText(facts, "o");
    if "z" in facts ==> facts["z"] == Str("CUSTOM_ROLES") { EventChecks(request, facts, form); }
  }

  lemma EventForm(request: Request, form: string)
    requires form in {"DEFINE", "AMEND", "RETIRE"} && request.target.Some? && Get(request.target.value, "event_action") == Str(form)
    ensures SelectForm(DEFINITIONS, request) == Form(form) && Form(form) != Form("PROPOSE_DEFINITION")
    ensures form != "DEFINE" ==> Form(form) != Form("DEFINE")
    ensures form == "RETIRE" ==> Form(form) != Form("AMEND") && form != "DEFINE"
    ensures forall e, facts :: ValidateForm(DEFINITIONS, e, request, facts).None?
  {
    assert |"DEFINE"| == 6 && |"AMEND"| == 5 && |"RETIRE"| == 6 && |"PROPOSE_DEFINITION"| == 18 && "DEFINE"[0] == 'D' && "RETIRE"[0] == 'R';
  }

  lemma EventShape(facts: Named, form: string)
    requires form in {"DEFINE", "AMEND", "RETIRE"}
    ensures var e := DefinitionEntry(form);
            && e.discriminators.Keys + e.keys.Keys == {"g", "c", "o"} + (if form == "RETIRE" then {} else {"z", "i"})
            && !e.exact && !e.proposeRole && GroupsMet(e, facts) && CompanionsMet(e, facts)
            && (HasRequired(e, facts) <==> {"g", "c", "o"} <= facts.Keys)
  {
  }

  lemma EventParts(facts: Named, form: string)
    requires form in {"DEFINE", "AMEND", "RETIRE"} && facts.Keys <= {"g", "c", "o"} + (if form == "RETIRE" then {} else {"z", "i"})
    ensures AllLawful(DefinitionEntry(form), facts) <==>
              && LawfulAt(facts, "g", Must(Ref)) && LawfulAt(facts, "c", Must(Ref)) && LawfulAt(facts, "o", Must(Ref))
              && LawfulAt(facts, "z", MayBe(Ref, {"CUSTOM_ROLES"})) && LawfulAt(facts, "i", May(RefOrNull))
  {
    hide Lawful; hide Must; hide May; hide MustBe; hide MayBe;
    forall k | k in facts ensures k in {"g", "c", "o"} + if form == "RETIRE" then {} else {"z", "i"} { assert k in facts.Keys; }
  }

  lemma EventKeys(facts: Named, form: string)
    requires form in {"DEFINE", "AMEND", "RETIRE"}
    ensures facts.Keys <= {"g", "c", "o"} + (if form == "RETIRE" then {} else {"z", "i"}) ==>
              (AllLawful(DefinitionEntry(form), facts) <==>
                 && IsText(facts, "g") && IsText(facts, "c") && IsText(facts, "o")
                 && ("z" in facts ==> facts["z"] == Str("CUSTOM_ROLES")) && ("i" in facts ==> facts["i"] == Null || facts["i"].Str?))
  {
    hide AllLawful; hide LawfulAt; hide IsText; hide IsOneOf; hide DefinitionEntry;
    if facts.Keys <= {"g", "c", "o"} + (if form == "RETIRE" then {} else {"z", "i"}) {
      EventParts(facts, form);
      ReferencesAreText(facts, "g"); ReferencesAreText(facts, "c"); ReferencesAreText(facts, "o");
      WordsAre(facts, "z", {"CUSTOM_ROLES"});
      WordsAre(facts, "i", {});
      if "z" in facts { OneWord(facts["z"], "CUSTOM_ROLES"); }
    }
  }

  lemma EventChecks(request: Request, facts: Named, form: string)
    requires form in {"DEFINE", "AMEND", "RETIRE"} && request.target.Some? && Get(request.target.value, "event_action") == Str(form)
    requires "z" in facts ==> facts["z"] == Str("CUSTOM_ROLES")
    ensures var target := request.target.value;
            ValidateDefinitionEvent(DEFINITIONS, request, facts).None? <==>
              && Get(facts, "c") != SENTINEL && Get(facts, "o") != SENTINEL && (form != "DEFINE" ==> Get(facts, "g") != SENTINEL)
              && (form != "RETIRE" ==>
                    && ("z" in facts <==> Get(target, "kind") == Str("CUSTOM"))
                    && ("i" in facts ==> Get(target, "nomination_basis") == Str("SILENT") && Get(target, "kind") != Str("CUSTOM")
                                         && Get(target, "nomination_policy") in {Str("A"), Str("B")}))
  {
    hide SelectForm;
    EventForm(request, form);
    assert DEFINITIONS.selector == DefinitionEventAction;
  }
}
