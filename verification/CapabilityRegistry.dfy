/**
 * Planned, transactional management of the two canonical OA capabilities: a catalog is classified
 * into one of five states, and a ready catalog is transformed in one transaction.
 *
 * Capability rows are keyed by id. A fingerprint is an injective function of the historical
 * fields of a row; the exact one keeps the status, the managed one replaces it.
 */
module CapabilityRegistry {
  import opened Values

  const PENDING := "oa.list_pending_workflows"
  const MESSAGES := "oa.list_system_messages"
  const OVERVIEW := "oa.read_overview"
  const REQUIRED: set<string> := {PENDING, MESSAGES}
  const MANAGED := "<managed-status>"

  /** The fields a fingerprint covers; `details` stands for those without a role here. */
  datatype Payload = Payload(id: string, status: string, target: Option<string>, details: string)

  /** A capability row; `extra` stands for the fields added after the fingerprints were taken. */
  datatype Spec = Spec(payload: Payload, extra: string)

  type Catalog = map<string, Spec>

  datatype Config = Config(
    hash: Payload -> string, authorized: set<string>, disabled: set<string>, untouched: set<string>,
    predecessors: set<string>, pending: Spec, messages: Spec, overview: Spec)

  /** Fingerprints are injective and the expected rows carry their own ids. */
  ghost predicate Sane(cfg: Config) {
    && (forall p, q :: cfg.hash(p) == cfg.hash(q) ==> p == q)
    && cfg.pending.payload.id == PENDING && cfg.messages.payload.id == MESSAGES
    && cfg.overview.payload.id == OVERVIEW
  }

  /** No row belongs to two of the three known families. */
  ghost predicate FamiliesDisjoint(cfg: Config) {
    forall s: Spec :: Authorized(cfg, s) ==> !KnownDisabled(cfg, s) && !KnownUnchanged(cfg, s)
  }

  ghost predicate Keyed(cat: Catalog) {
    forall id :: id in cat ==> cat[id].payload.id == id
  }

  // ---------------------------------------------------------------- classification of rows

  function Managed(cfg: Config, s: Spec): string {
    cfg.hash(s.payload.(status := MANAGED))
  }

  function Exact(cfg: Config, s: Spec): string {
    cfg.hash(s.payload)
  }

  predicate Authorized(cfg: Config, s: Spec) {
    Managed(cfg, s) in cfg.authorized
  }

  predicate KnownDisabled(cfg: Config, s: Spec) {
    Managed(cfg, s) in cfg.disabled
  }

  predicate KnownUnchanged(cfg: Config, s: Spec) {
    Exact(cfg, s) in cfg.untouched
  }

  predicate CanonicalOverview(cfg: Config, s: Spec) {
    && (s.payload.status == "active" || s.payload.status == "disabled")
    && s == cfg.overview.(payload := cfg.overview.payload.(status := s.payload.status))
  }

  /** A row of the OA system, or the overview row, that is not canonical. */
  predicate Noncanonical(cfg: Config, s: Spec) {
    && (s.payload.target == Some("oa") || s.payload.id == OVERVIEW)
    && s.payload.id !in REQUIRED
    && !CanonicalOverview(cfg, s)
  }

  predicate Unknown(cfg: Config, s: Spec) {
    !Authorized(cfg, s) && !KnownDisabled(cfg, s) && !KnownUnchanged(cfg, s)
  }

  predicate Is(s: Spec, status: string) {
    s.payload.status == status
  }

  /** The expected row of a required id. */
  function Expected(cfg: Config, id: string): Spec {
    if id == PENDING then cfg.pending else cfg.messages
  }

  // ---------------------------------------------------------------- plan

  datatype PlanState = ReadyEmpty | ReadyLegacy | ReadyCanonicalUpdate | AlreadyApplied | PreconditionFailed

  datatype Plan = Plan(state: PlanState, inserts: nat, disables: nat, updates: nat)

  predicate Ready(plan: Plan) {
    plan.state.ReadyEmpty? || plan.state.ReadyLegacy? || plan.state.ReadyCanonicalUpdate?
  }

  function Found(cat: Catalog): set<string> {
    set id | id in REQUIRED && id in cat
  }

  function Valid(cfg: Config, cat: Catalog): set<string> {
    set id | id in REQUIRED && id in cat && cat[id] == Expected(cfg, id)
  }

  function Others(cfg: Config, cat: Catalog): set<string> {
    set id | id in cat && Noncanonical(cfg, cat[id])
  }

  function AuthorizedIds(cfg: Config, cat: Catalog): set<string> {
    set id | id in cat && Noncanonical(cfg, cat[id]) && Authorized(cfg, cat[id])
  }

  function DisabledIds(cfg: Config, cat: Catalog): set<string> {
    set id | id in cat && Noncanonical(cfg, cat[id]) && KnownDisabled(cfg, cat[id])
  }

  function UnchangedIds(cfg: Config, cat: Catalog): set<string> {
    set id | id in cat && Noncanonical(cfg, cat[id]) && KnownUnchanged(cfg, cat[id])
  }

  function UnknownIds(cfg: Config, cat: Catalog): set<string> {
    set id | id in cat && Noncanonical(cfg, cat[id]) && Unknown(cfg, cat[id])
  }

  function WithStatus(cat: Catalog, ids: set<string>, status: string): set<string> {
    set id | id in ids && id in cat && Is(cat[id], status)
  }

  predicate AllOrNone(n: nat, family: set<string>) {
    n == 0 || n == |family|
  }

  /** What every accepted catalog with known rows satisfies, apart from the authorized family. */
  predicate OthersKnown(cfg: Config, cat: Catalog) {
    && AllOrNone(|DisabledIds(cfg, cat)|, cfg.disabled)
    && (forall id :: id in DisabledIds(cfg, cat) ==> Is(cat[id], "disabled"))
    && AllOrNone(|UnchangedIds(cfg, cat)|, cfg.untouched)
    && UnknownIds(cfg, cat) == {}
  }

  /** The authorized family is absent, or all of it is there and disabled. */
  predicate LegacyRetired(cfg: Config, cat: Catalog) {
    var legacy := AuthorizedIds(cfg, cat);
    && AllOrNone(|legacy|, cfg.authorized)
    && WithStatus(cat, legacy, "active") == {}
    && |WithStatus(cat, legacy, "disabled")| == |legacy|
  }

  predicate LegacyReady(cfg: Config, cat: Catalog) {
    var legacy := AuthorizedIds(cfg, cat);
    && |legacy| == |cfg.authorized|
    && |WithStatus(cat, legacy, "active")| == |cfg.authorized|
    && WithStatus(cat, legacy, "disabled") == {}
  }

  predicate PredecessorValid(cfg: Config, cat: Catalog) {
    PENDING in cat && Exact(cfg, cat[PENDING]) in cfg.predecessors
  }

  function PlanRegistry(cfg: Config, cat: Catalog): Plan {
    if Found(cat) == {} && Others(cfg, cat) == {} then Plan(ReadyEmpty, |REQUIRED|, 0, 0)
    else if Found(cat) == {} && LegacyReady(cfg, cat) && OthersKnown(cfg, cat) then
      Plan(ReadyLegacy, |REQUIRED|, |WithStatus(cat, AuthorizedIds(cfg, cat), "active")|, 0)
    else if && |Found(cat)| == |REQUIRED| && |Valid(cfg, cat)| == 1 && PredecessorValid(cfg, cat)
            && LegacyRetired(cfg, cat) && OthersKnown(cfg, cat)
    then Plan(ReadyCanonicalUpdate, 0, 0, 1)
    else if |Valid(cfg, cat)| == |REQUIRED| && LegacyRetired(cfg, cat) && OthersKnown(cfg, cat) then
      Plan(AlreadyApplied, 0, 0, 0)
    else Plan(PreconditionFailed, 0, 0, 0)
  }

  // ---------------------------------------------------------------- counting

  lemma {:induction false} SubsetSize<T>(a: set<T>, b: set<T>)
    requires a <= b
    ensures |a| <= |b| && (|a| == |b| ==> a == b)
  {
    if a == {} {
      assert |b| == 0 ==> b == {};
    } else {
      var x :| x in a;
      SubsetSize(a - {x}, b - {x});
      assert a == a - {x} + {x} && b == b - {x} + {x};
    }
  }

  function Image(ids: set<string>, f: string -> string): set<string> {
    set id | id in ids :: f(id)
  }

  lemma {:induction false} ImageSize(ids: set<string>, f: string -> string)
    requires forall i, j :: i in ids && j in ids && f(i) == f(j) ==> i == j
    ensures |Image(ids, f)| == |ids|
  {
    if ids != {} {
      var x :| x in ids;
      ImageSize(ids - {x}, f);
      assert f(x) !in Image(ids - {x}, f);
      assert Image(ids, f) == Image(ids - {x}, f) + {f(x)};
    }
  }

  /** As many rows as fingerprints, each fingerprint that of one row: every fingerprint has its row. */
  lemma EachOnce(ids: set<string>, f: string -> string, family: set<string>)
    requires forall i :: i in ids ==> f(i) in family
    requires forall i, j :: i in ids && j in ids && f(i) == f(j) ==> i == j
    requires |ids| == |family|
    ensures Image(ids, f) == family
  {
    ImageSize(ids, f);
    SubsetSize(Image(ids, f), family);
  }

  /** Two rows with one managed fingerprint have one id. */
  lemma FingerprintNamesOne(cfg: Config, a: Spec, b: Spec)
    requires Sane(cfg) && Managed(cfg, a) == Managed(cfg, b)
    ensures a.payload.id == b.payload.id && a.payload.(status := MANAGED) == b.payload.(status := MANAGED)
  {
  }

  /**
   * `ReadyLegacy` means that every authorized fingerprint is that of exactly one row of the whole
   * catalog, and that row is active.
   */
  lemma {:induction false} ReadyLegacyMeansEachOnce(cfg: Config, cat: Catalog, f: string)
    requires Sane(cfg) && Keyed(cat) && PlanRegistry(cfg, cat).state.ReadyLegacy? && f in cfg.authorized
    ensures exists id :: id in cat && Managed(cfg, cat[id]) == f && Is(cat[id], "active") &&
              forall j :: j in cat && Managed(cfg, cat[j]) == f ==> j == id
  {
    var legacy := AuthorizedIds(cfg, cat);
    var g := (id: string) => if id in cat then Managed(cfg, cat[id]) else "";
    forall i, j | i in legacy && j in legacy && g(i) == g(j) ensures i == j {
      FingerprintNamesOne(cfg, cat[i], cat[j]);
    }
    EachOnce(legacy, g, cfg.authorized);
    assert f in Image(legacy, g);
    var id :| id in legacy && g(id) == f;
    SubsetSize(WithStatus(cat, legacy, "active"), legacy);
    forall j | j in cat && Managed(cfg, cat[j]) == f ensures j == id {
      FingerprintNamesOne(cfg, cat[j], cat[id]);
    }
    assert id in cat && Managed(cfg, cat[id]) == f && Is(cat[id], "active");
  }

  // ---------------------------------------------------------------- writes

  function Disabled(s: Spec): Spec {
    s.(payload := s.payload.(status := "disabled"))
  }

  /** The ids that the disabling statement names. */
  function LegacyIds(cfg: Config, cat: Catalog): set<string> {
    set id | id in cat && cat[id].payload.target == Some("oa") && Is(cat[id], "active") && Authorized(cfg, cat[id])
  }

  function Disable(cat: Catalog, ids: set<string>): Catalog {
    map id | id in cat :: if id in ids && Is(cat[id], "active") then Disabled(cat[id]) else cat[id]
  }

  function InsertExpected(cfg: Config, cat: Catalog): Catalog {
    cat[PENDING := cfg.pending][MESSAGES := cfg.messages]
  }

  /** Every authorized row is a row of the OA system, so that the disabling statement names it. */
  predicate AuthorizedAreOa(cfg: Config, cat: Catalog) {
    forall id :: id in AuthorizedIds(cfg, cat) ==> cat[id].payload.target == Some("oa")
  }

  /** The pending row is the active predecessor, so that the update matches it and changes it. */
  predicate PredecessorIsActive(cfg: Config, cat: Catalog) {
    PENDING in cat && Is(cat[PENDING], "active") && cat[PENDING] != cfg.pending
  }

  /** When a ready catalog can be applied. */
  predicate Applicable(cfg: Config, cat: Catalog) {
    match PlanRegistry(cfg, cat).state
    case ReadyEmpty => true
    case ReadyLegacy => AuthorizedAreOa(cfg, cat)
    case ReadyCanonicalUpdate => PredecessorIsActive(cfg, cat)
    case AlreadyApplied => false
    case PreconditionFailed => false
  }

  /** The catalog after a successful apply. */
  ghost function Target(cfg: Config, cat: Catalog): Catalog {
    match PlanRegistry(cfg, cat).state
    case ReadyEmpty => InsertExpected(cfg, cat)
    case ReadyLegacy => InsertExpected(cfg, Disable(cat, LegacyIds(cfg, cat)))
    case ReadyCanonicalUpdate => cat[PENDING := cfg.pending]
    case AlreadyApplied => cat
    case PreconditionFailed => cat
  }

  // ---------------------------------------------------------------- one plan at a time

  lemma RequiredAreTwo()
    ensures PENDING != MESSAGES && OVERVIEW !in REQUIRED && |REQUIRED| == 2
  {
    assert |PENDING| != |MESSAGES| && |OVERVIEW| != |PENDING| && |OVERVIEW| != |MESSAGES|;
  }

  lemma {:induction false} InsertedAreValid(cfg: Config, cat: Catalog)
    ensures Found(InsertExpected(cfg, cat)) == REQUIRED == Valid(cfg, InsertExpected(cfg, cat))
  {
    RequiredAreTwo();
    var after := InsertExpected(cfg, cat);
    assert forall id :: id in REQUIRED ==> id in Found(after) && id in Valid(cfg, after);
  }

  /** Canonical rows are in none of the families. */
  lemma {:induction false} InsertKeepsFamilies(cfg: Config, cat: Catalog)
    requires Sane(cfg) && Found(cat) == {}
    ensures var after := InsertExpected(cfg, cat);
            && AuthorizedIds(cfg, after) == AuthorizedIds(cfg, cat)
            && DisabledIds(cfg, after) == DisabledIds(cfg, cat)
            && UnchangedIds(cfg, after) == UnchangedIds(cfg, cat)
            && UnknownIds(cfg, after) == UnknownIds(cfg, cat)
            && forall id :: id in cat ==> id !in REQUIRED && after[id] == cat[id]
  {
    assert forall id :: id in cat && id in REQUIRED ==> id in Found(cat);
  }

  /** Once the legacy rows are retired and the rest is known, inserting the expected rows completes it. */
  lemma InsertCompletes(cfg: Config, cat: Catalog)
    requires Sane(cfg) && Found(cat) == {} && LegacyRetired(cfg, cat) && OthersKnown(cfg, cat)
    ensures PlanRegistry(cfg, InsertExpected(cfg, cat)).state.AlreadyApplied?
  {
    RequiredAreTwo();
    InsertedAreValid(cfg, cat);
    InsertKeepsFamilies(cfg, cat);
    var after := InsertExpected(cfg, cat);
    var legacy := AuthorizedIds(cfg, cat);
    assert WithStatus(after, legacy, "active") == WithStatus(cat, legacy, "active");
    assert WithStatus(after, legacy, "disabled") == WithStatus(cat, legacy, "disabled");
  }

  lemma EmptyApplies(cfg: Config, cat: Catalog)
    requires Sane(cfg) && PlanRegistry(cfg, cat).state.ReadyEmpty?
    ensures PlanRegistry(cfg, Target(cfg, cat)).state.AlreadyApplied?
  {
    NoOthersNoFamilies(cfg, cat);
    assert WithStatus(cat, {}, "active") == {} && WithStatus(cat, {}, "disabled") == {};
    InsertCompletes(cfg, cat);
  }

  lemma NoOthersNoFamilies(cfg: Config, cat: Catalog)
    requires Others(cfg, cat) == {}
    ensures AuthorizedIds(cfg, cat) == {} && DisabledIds(cfg, cat) == {}
    ensures UnchangedIds(cfg, cat) == {} && UnknownIds(cfg, cat) == {}
  {
    assert AuthorizedIds(cfg, cat) <= Others(cfg, cat) && DisabledIds(cfg, cat) <= Others(cfg, cat);
    assert UnchangedIds(cfg, cat) <= Others(cfg, cat) && UnknownIds(cfg, cat) <= Others(cfg, cat);
  }

  /** Under a ready legacy plan, every authorized row of the catalog is one of those counted. */
  lemma {:induction false} LegacyIdsAreCounted(cfg: Config, cat: Catalog)
    requires Sane(cfg) && Keyed(cat) && PlanRegistry(cfg, cat).state.ReadyLegacy?
    ensures LegacyIds(cfg, cat) <= AuthorizedIds(cfg, cat)
    ensures WithStatus(cat, AuthorizedIds(cfg, cat), "active") == AuthorizedIds(cfg, cat)
  {
    var legacy := AuthorizedIds(cfg, cat);
    SubsetSize(WithStatus(cat, legacy, "active"), legacy);
    var g := (id: string) => if id in cat then Managed(cfg, cat[id]) else "";
    forall i, j | i in legacy && j in legacy && g(i) == g(j) ensures i == j {
      FingerprintNamesOne(cfg, cat[i], cat[j]);
    }
    EachOnce(legacy, g, cfg.authorized);
    forall j | j in LegacyIds(cfg, cat) ensures j in legacy {
      assert Managed(cfg, cat[j]) in Image(legacy, g);
      var id :| id in legacy && g(id) == Managed(cfg, cat[j]);
      FingerprintNamesOne(cfg, cat[j], cat[id]);
    }
  }

  /** The disabling statement meets its row count exactly when every authorized row is an OA row. */
  lemma {:induction false} RowCountMatches(cfg: Config, cat: Catalog)
    requires Sane(cfg) && Keyed(cat) && PlanRegistry(cfg, cat).state.ReadyLegacy?
    ensures |LegacyIds(cfg, cat)| == PlanRegistry(cfg, cat).disables <==> AuthorizedAreOa(cfg, cat)
    ensures AuthorizedAreOa(cfg, cat) ==> LegacyIds(cfg, cat) == AuthorizedIds(cfg, cat)
  {
    LegacyIdsAreCounted(cfg, cat);
    var legacy := AuthorizedIds(cfg, cat);
    assert PlanRegistry(cfg, cat).disables == |legacy|;
    SubsetSize(LegacyIds(cfg, cat), legacy);
    assert forall id :: id in legacy ==> id in WithStatus(cat, legacy, "active");
    if AuthorizedAreOa(cfg, cat) {
      assert legacy <= LegacyIds(cfg, cat);
      assert LegacyIds(cfg, cat) == legacy;
    } else {
      var id :| id in legacy && cat[id].payload.target != Some("oa");
      assert id !in LegacyIds(cfg, cat);
    }
  }

  /** Disabling an active row changes its status and no classification but the exact fingerprint. */
  lemma DisabledKeeps(cfg: Config, s: Spec)
    requires Is(s, "active")
    ensures Noncanonical(cfg, Disabled(s)) == Noncanonical(cfg, s)
    ensures Managed(cfg, Disabled(s)) == Managed(cfg, s)
  {
    assert Disabled(s).payload.(status := MANAGED) == s.payload.(status := MANAGED);
    assert Disabled(s).(payload := Disabled(s).payload.(status := "active")) == s;
  }

  lemma DisableKeepsFamilies(cfg: Config, cat: Catalog, ids: set<string>)
    requires FamiliesDisjoint(cfg) && ids <= AuthorizedIds(cfg, cat)
    ensures var after := Disable(cat, ids);
            && AuthorizedIds(cfg, after) == AuthorizedIds(cfg, cat)
            && DisabledIds(cfg, after) == DisabledIds(cfg, cat)
            && UnchangedIds(cfg, after) == UnchangedIds(cfg, cat)
            && UnknownIds(cfg, after) == UnknownIds(cfg, cat)
            && forall id :: id in DisabledIds(cfg, cat) ==> after[id] == cat[id]
  {
    var after := Disable(cat, ids);
    forall id | id in cat
      ensures Noncanonical(cfg, after[id]) == Noncanonical(cfg, cat[id])
      ensures Managed(cfg, after[id]) == Managed(cfg, cat[id])
      ensures after[id] == cat[id] ||
                (Authorized(cfg, cat[id]) && !KnownUnchanged(cfg, cat[id]) && !KnownUnchanged(cfg, after[id]))
    {
      if after[id] != cat[id] { DisabledKeeps(cfg, cat[id]); }
    }
  }

  lemma {:induction false} DisableRetires(cfg: Config, cat: Catalog)
    requires FamiliesDisjoint(cfg) && OthersKnown(cfg, cat) && |AuthorizedIds(cfg, cat)| == |cfg.authorized|
    requires WithStatus(cat, AuthorizedIds(cfg, cat), "active") == AuthorizedIds(cfg, cat)
    ensures var after := Disable(cat, AuthorizedIds(cfg, cat));
            LegacyRetired(cfg, after) && OthersKnown(cfg, after)
  {
    var legacy := AuthorizedIds(cfg, cat);
    var after := Disable(cat, legacy);
    DisableKeepsFamilies(cfg, cat, legacy);
    assert forall id :: id in legacy ==> id in WithStatus(cat, legacy, "active") && Is(after[id], "disabled");
    assert WithStatus(after, legacy, "disabled") == legacy && WithStatus(after, legacy, "active") == {};
  }

  lemma LegacyApplies(cfg: Config, cat: Catalog)
    requires Sane(cfg) && FamiliesDisjoint(cfg) && Keyed(cat)
    requires PlanRegistry(cfg, cat).state.ReadyLegacy? && AuthorizedAreOa(cfg, cat)
    ensures PlanRegistry(cfg, Target(cfg, cat)).state.AlreadyApplied?
  {
    RowCountMatches(cfg, cat);
    LegacyIdsAreCounted(cfg, cat);
    DisableRetires(cfg, cat);
    var mid := Disable(cat, LegacyIds(cfg, cat));
    assert Found(mid) == Found(cat);
    InsertCompletes(cfg, mid);
  }

  /** An authorized row outside the OA system stays active, so the new catalog does not pass. */
  lemma {:induction false} LegacyFails(cfg: Config, cat: Catalog)
    requires Sane(cfg) && FamiliesDisjoint(cfg) && Keyed(cat)
    requires PlanRegistry(cfg, cat).state.ReadyLegacy? && !AuthorizedAreOa(cfg, cat)
    ensures !PlanRegistry(cfg, InsertExpected(cfg, cat)).state.AlreadyApplied?
  {
    RequiredAreTwo();
    LegacyIdsAreCounted(cfg, cat);
    var legacy := AuthorizedIds(cfg, cat);
    var id :| id in legacy && cat[id].payload.target != Some("oa");
    assert id in WithStatus(cat, legacy, "active");
    ActiveStaysActive(cfg, cat, id);
  }

  lemma ActiveStaysActive(cfg: Config, cat: Catalog, id: string)
    requires Sane(cfg) && Found(cat) == {} && id in WithStatus(cat, AuthorizedIds(cfg, cat), "active")
    ensures var after := InsertExpected(cfg, cat); id in WithStatus(after, AuthorizedIds(cfg, after), "active")
    ensures !LegacyRetired(cfg, InsertExpected(cfg, cat)) && Found(InsertExpected(cfg, cat)) != {}
  {
    InsertKeepsFamilies(cfg, cat);
    InsertedAreValid(cfg, cat);
  }

  lemma UpdateKeepsFamilies(cfg: Config, cat: Catalog)
    requires Sane(cfg) && Keyed(cat) && PENDING in cat
    ensures var after := cat[PENDING := cfg.pending];
            && AuthorizedIds(cfg, after) == AuthorizedIds(cfg, cat)
            && DisabledIds(cfg, after) == DisabledIds(cfg, cat)
            && UnchangedIds(cfg, after) == UnchangedIds(cfg, cat)
            && UnknownIds(cfg, after) == UnknownIds(cfg, cat)
  {
    assert !Noncanonical(cfg, cat[PENDING]) && !Noncanonical(cfg, cfg.pending);
  }

  lemma ValidAfterUpdate(cfg: Config, cat: Catalog)
    requires |Found(cat)| == |REQUIRED| && |Valid(cfg, cat)| == 1
    ensures PENDING in cat
    ensures |Valid(cfg, cat[PENDING := cfg.pending])| == |REQUIRED| <==> cat[PENDING] != cfg.pending
  {
    RequiredAreTwo();
    SubsetSize(Found(cat), REQUIRED);
    assert PENDING in Found(cat) && MESSAGES in Found(cat);
    var after := cat[PENDING := cfg.pending];
    if cat[PENDING] == cfg.pending {
      assert after == cat;
    } else {
      assert Valid(cfg, cat) <= {MESSAGES} && (MESSAGES in Valid(cfg, cat) || Valid(cfg, cat) == {});
      assert cat[MESSAGES] == cfg.messages;
      assert Valid(cfg, after) == REQUIRED;
    }
  }

  lemma UpdateApplies(cfg: Config, cat: Catalog)
    requires Sane(cfg) && Keyed(cat) && PlanRegistry(cfg, cat).state.ReadyCanonicalUpdate?
    ensures PENDING in cat
    ensures PlanRegistry(cfg, cat[PENDING := cfg.pending]).state.AlreadyApplied? <==> cat[PENDING] != cfg.pending
  {
    RequiredAreTwo();
    ValidAfterUpdate(cfg, cat);
    UpdateKeepsFamilies(cfg, cat);
    var after := cat[PENDING := cfg.pending];
    var legacy := AuthorizedIds(cfg, cat);
    assert PENDING !in legacy && PENDING !in DisabledIds(cfg, cat);
    assert WithStatus(after, legacy, "active") == WithStatus(cat, legacy, "active");
    assert WithStatus(after, legacy, "disabled") == WithStatus(cat, legacy, "disabled");
    assert Found(after) == Found(cat);
  }

  /** A ready catalog that can be applied becomes one that needs nothing more. */
  lemma TargetIsApplied(cfg: Config, cat: Catalog)
    requires Sane(cfg) && FamiliesDisjoint(cfg) && Keyed(cat) && Applicable(cfg, cat)
    ensures PlanRegistry(cfg, Target(cfg, cat)).state.AlreadyApplied?
  {
    match PlanRegistry(cfg, cat).state
    case ReadyEmpty => EmptyApplies(cfg, cat);
    case ReadyLegacy => LegacyApplies(cfg, cat);
    case ReadyCanonicalUpdate => UpdateApplies(cfg, cat);
  }

  /** Only required ids are added, only authorized rows are disabled, only the pending row is updated. */
  lemma OthersAreUntouched(cfg: Config, cat: Catalog, id: string)
    requires id in cat && id !in REQUIRED
    ensures id in Target(cfg, cat)
    ensures Target(cfg, cat)[id] == cat[id] || (Authorized(cfg, cat[id]) && Target(cfg, cat)[id] == Disabled(cat[id]))
    ensures Target(cfg, cat).Keys <= cat.Keys + REQUIRED
  {
  }

  // ---------------------------------------------------------------- ready is not enough

  function Row(id: string, status: string, target: Option<string>): Spec {
    Spec(Payload(id, status, target, ""), "")
  }

  /** Expected rows and families with the given authorized and predecessor fingerprints and no others. */
  function Example(hash: Payload -> string, authorized: set<string>, predecessors: set<string>): Config {
    Config(hash, authorized, {}, {}, predecessors, Row(PENDING, "active", Some("oa")),
           Row(MESSAGES, "active", Some("oa")), Row(OVERVIEW, "active", Some("oa")))
  }

  /** A predecessor that is not active passes the plan, and the update then matches no row. */
  lemma InactivePredecessorFails(hash: Payload -> string)
    requires forall p, q :: hash(p) == hash(q) ==> p == q
    ensures exists cfg, cat ::
              && Sane(cfg) && FamiliesDisjoint(cfg) && Keyed(cat)
              && PlanRegistry(cfg, cat).state.ReadyCanonicalUpdate? && !Applicable(cfg, cat)
  {
    RequiredAreTwo();
    var old_ := Row(PENDING, "disabled", Some("oa"));
    var cfg := Example(hash, {}, {hash(old_.payload)});
    var cat: Catalog := map[PENDING := old_, MESSAGES := cfg.messages];
    assert Found(cat) == REQUIRED && Valid(cfg, cat) == {MESSAGES};
    assert Others(cfg, cat) == {};
    NoOthersNoFamilies(cfg, cat);
    assert WithStatus(cat, {}, "active") == {} && WithStatus(cat, {}, "disabled") == {};
    assert PlanRegistry(cfg, cat).state.ReadyCanonicalUpdate? && !Applicable(cfg, cat);
  }

  /** An authorized overview row of another system passes the plan, and no statement disables it. */
  lemma ForeignOverviewFails(hash: Payload -> string)
    requires forall p, q :: hash(p) == hash(q) ==> p == q
    ensures exists cfg, cat ::
              && Sane(cfg) && FamiliesDisjoint(cfg) && Keyed(cat)
              && PlanRegistry(cfg, cat).state.ReadyLegacy? && !Applicable(cfg, cat)
  {
    RequiredAreTwo();
    var row := Row(OVERVIEW, "active", Some("u8"));
    var cfg := Example(hash, {hash(row.payload.(status := MANAGED))}, {});
    var cat: Catalog := map[OVERVIEW := row];
    assert Noncanonical(cfg, row) && Authorized(cfg, row);
    assert Found(cat) == {} && OVERVIEW in Others(cfg, cat);
    assert AuthorizedIds(cfg, cat) == {OVERVIEW} == WithStatus(cat, {OVERVIEW}, "active");
    assert WithStatus(cat, {OVERVIEW}, "disabled") == {};
    assert DisabledIds(cfg, cat) == {} && UnchangedIds(cfg, cat) == {} && UnknownIds(cfg, cat) == {};
    assert PlanRegistry(cfg, cat).state.ReadyLegacy? && !Applicable(cfg, cat);
  }

  // ---------------------------------------------------------------- the registry

  datatype ErrorCode = CanonicalUpdateMismatch | UpdateMismatch | PostconditionFailed | DatabaseFailed | AuditFailed

  /** Applied, returned with nothing to write, or rolled back. */
  datatype Outcome = Applied(plan: Plan) | Returned(plan: Plan) | RolledBack(error: ErrorCode)

  /** Where the audit observer or the database fails, if anywhere. */
  datatype Fault = NoFault | ObserverFails | WriteFails | CommitFails

  /** The row count that a ready plan misses, if any. */
  ghost function WriteError(cfg: Config, cat: Catalog): Option<ErrorCode> {
    match PlanRegistry(cfg, cat).state
    case ReadyCanonicalUpdate =>
      if PENDING in cat && Is(cat[PENDING], "active") then None else Some(CanonicalUpdateMismatch)
    case ReadyLegacy =>
      if AuthorizedAreOa(cfg, cat) || LegacyIds(cfg, cat) == {} then None else Some(UpdateMismatch)
    case _ => None
  }

  /** What a transaction answers. */
  ghost function Answer(cfg: Config, cat: Catalog, fault: Fault): Outcome {
    var plan := PlanRegistry(cfg, cat);
    if fault.ObserverFails? then RolledBack(AuditFailed)
    else if !Ready(plan) then Returned(plan)
    else if fault.WriteFails? then RolledBack(DatabaseFailed)
    else if !Applicable(cfg, cat) then
      RolledBack(if WriteError(cfg, cat).Some? then WriteError(cfg, cat).value else PostconditionFailed)
    else if fault.CommitFails? then RolledBack(DatabaseFailed)
    else Applied(plan)
  }

  class Registry {
    const cfg: Config
    var catalog: Catalog

    constructor (cfg: Config, catalog: Catalog)
      ensures this.cfg == cfg && this.catalog == catalog
    {
      this.cfg, this.catalog := cfg, catalog;
    }

    /** The canonical update: matches its row exactly when that row is active. */
    method UpdateCanonical(plan: Plan) returns (view: Catalog, error: Option<ErrorCode>)
      requires Sane(cfg) && Keyed(catalog) && plan == PlanRegistry(cfg, catalog) && plan.state.ReadyCanonicalUpdate?
      ensures error == WriteError(cfg, catalog)
      ensures Applicable(cfg, catalog) ==> error.None? && view == Target(cfg, catalog)
      ensures !Applicable(cfg, catalog) && error.None? ==> !PlanRegistry(cfg, view).state.AlreadyApplied?
    {
      UpdateApplies(cfg, catalog);
      var matched := if Is(catalog[PENDING], "active") then 1 else 0;
      view := if matched == 1 then catalog[PENDING := cfg.pending] else catalog;
      error := if matched != plan.updates then Some(CanonicalUpdateMismatch) else None;
    }

    /** The disabling statement, if it names any row, and its row count. */
    method DisableLegacy(disables: nat) returns (view: Catalog, error: Option<ErrorCode>)
      requires |LegacyIds(cfg, catalog)| == disables <==> AuthorizedAreOa(cfg, catalog)
      ensures error == if AuthorizedAreOa(cfg, catalog) || LegacyIds(cfg, catalog) == {} then None else Some(UpdateMismatch)
      ensures AuthorizedAreOa(cfg, catalog) ==> error.None? && view == Disable(catalog, LegacyIds(cfg, catalog))
      ensures !AuthorizedAreOa(cfg, catalog) && error.None? ==> view == catalog
    {
      var legacyIds := LegacyIds(cfg, catalog);
      if legacyIds == {} {
        DisableNothing(catalog);
        return catalog, None;
      }
      view := Disable(catalog, legacyIds);
      error := if |legacyIds| != disables then Some(UpdateMismatch) else None;
    }

    /** The writes of one plan on the transaction's own view of the table. */
    method WritePlan(plan: Plan) returns (view: Catalog, error: Option<ErrorCode>)
      requires Sane(cfg) && FamiliesDisjoint(cfg) && Keyed(catalog)
      requires plan == PlanRegistry(cfg, catalog) && Ready(plan)
      ensures error == WriteError(cfg, catalog)
      ensures Applicable(cfg, catalog) ==> error.None? && view == Target(cfg, catalog)
      ensures !Applicable(cfg, catalog) && error.None? ==> !PlanRegistry(cfg, view).state.AlreadyApplied?
    {
      if plan.state.ReadyCanonicalUpdate? {
        view, error := UpdateCanonical(plan);
        return;
      }
      view, error := catalog, None;
      if plan.state.ReadyLegacy? {
        RowCountMatches(cfg, catalog);
        view, error := DisableLegacy(plan.disables);
        if error.Some? { return; }
        if !AuthorizedAreOa(cfg, catalog) { LegacyFails(cfg, catalog); }
      }
      view := InsertExpected(cfg, view);
    }

    /**
     * One transaction. It is applied exactly when the plan is ready, its own condition holds and
     * nothing fails; in every other case the table is what it was.
     */
    method Apply(fault: Fault) returns (r: Outcome)
      requires Sane(cfg) && FamiliesDisjoint(cfg) && Keyed(catalog)
      modifies this
      ensures r == Answer(cfg, old(catalog), fault)
      ensures r.Applied? <==> Applicable(cfg, old(catalog)) && fault.NoFault?
      ensures catalog == if r.Applied? then Target(cfg, old(catalog)) else old(catalog)
      ensures r.Applied? ==> PlanRegistry(cfg, catalog).state.AlreadyApplied?
      ensures Keyed(catalog)
      ensures r.Returned? ==> r.plan == PlanRegistry(cfg, catalog)
      ensures r.Returned? <==> (!fault.ObserverFails? && !Ready(PlanRegistry(cfg, old(catalog))))
    {
      TargetIsKeyed(cfg, catalog);
      var plan := PlanRegistry(cfg, catalog);
      if fault.ObserverFails? { return RolledBack(AuditFailed); }
      if !Ready(plan) { return Returned(plan); }
      var view, error := WritePlan(plan);
      if fault.WriteFails? { return RolledBack(DatabaseFailed); }
      if error.Some? { return RolledBack(error.value); }
      var postcondition := PlanRegistry(cfg, view);
      if Applicable(cfg, catalog) { TargetIsApplied(cfg, catalog); }
      if !postcondition.state.AlreadyApplied? { return RolledBack(PostconditionFailed); }
      if fault.CommitFails? { return RolledBack(DatabaseFailed); }
      catalog := view;
      return Applied(plan);
    }
  }

  lemma DisableNothing(cat: Catalog)
    ensures Disable(cat, {}) == cat
  {
  }

  lemma TargetIsKeyed(cfg: Config, cat: Catalog)
    requires Sane(cfg) && Keyed(cat)
    ensures Keyed(Target(cfg, cat))
  {
  }
}
