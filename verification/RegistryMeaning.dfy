/**
 * What a plan says about the rows of the catalog and their fingerprints, without the sets the
 * planner counts: the exact condition of each of its five states
 * (scripts/manage_oa_capabilities.py).
 */
module RegistryMeaning {
  import opened Values
  import opened CapabilityRegistry

  /** A row that has to be accounted for: of the OA system or the overview, and not canonical. */
  ghost predicate Legacy(cfg: Config, s: Spec) {
    && (s.payload.target == Some("oa") || s.payload.id == "oa.read_overview")
    && s.payload.id != "oa.list_pending_workflows" && s.payload.id != "oa.list_system_messages"
    && s != Spec(cfg.overview.payload.(status := "active"), cfg.overview.extra)
    && s != Spec(cfg.overview.payload.(status := "disabled"), cfg.overview.extra)
  }

  /** The fingerprint of a row whatever its status. */
  function Shape(cfg: Config, s: Spec): string {
    cfg.hash(Payload(s.payload.id, "<managed-status>", s.payload.target, s.payload.details))
  }

  ghost predicate Shaped(cfg: Config, cat: Catalog, id: string, f: string) {
    id in cat && Legacy(cfg, cat[id]) && Shape(cfg, cat[id]) == f
  }

  /** Every fingerprint of the family is that of some row with the given status. */
  ghost predicate AllWith(cfg: Config, cat: Catalog, family: set<string>, status: string) {
    forall f :: f in family ==> exists id :: Shaped(cfg, cat, id, f) && cat[id].payload.status == status
  }

  ghost predicate NoneOf(cfg: Config, cat: Catalog, family: set<string>) {
    forall id :: id in cat && Legacy(cfg, cat[id]) ==> Shape(cfg, cat[id]) !in family
  }

  ghost predicate Same(cfg: Config, cat: Catalog, id: string, f: string) {
    id in cat && Legacy(cfg, cat[id]) && cfg.hash(cat[id].payload) == f
  }

  ghost predicate AllUntouched(cfg: Config, cat: Catalog) {
    forall f :: f in cfg.untouched ==> exists id :: Same(cfg, cat, id, f)
  }

  ghost predicate NoneUntouched(cfg: Config, cat: Catalog) {
    forall id :: id in cat && Legacy(cfg, cat[id]) ==> cfg.hash(cat[id].payload) !in cfg.untouched
  }

  /** Every legacy row is known, and the two families beside the authorized one are whole or missing. */
  ghost predicate Accounted(cfg: Config, cat: Catalog) {
    && (NoneOf(cfg, cat, cfg.disabled) || AllWith(cfg, cat, cfg.disabled, "disabled"))
    && (NoneUntouched(cfg, cat) || AllUntouched(cfg, cat))
    && forall id :: id in cat && Legacy(cfg, cat[id]) ==>
         Shape(cfg, cat[id]) in cfg.authorized + cfg.disabled || cfg.hash(cat[id].payload) in cfg.untouched
  }

  ghost predicate Retired(cfg: Config, cat: Catalog) {
    NoneOf(cfg, cat, cfg.authorized) || AllWith(cfg, cat, cfg.authorized, "disabled")
  }

  // ---------------------------------------------------------------- rows

  lemma LegacyIff(cfg: Config, s: Spec)
    ensures Noncanonical(cfg, s) <==> Legacy(cfg, s)
    ensures Managed(cfg, s) == Shape(cfg, s)
  {
    var payload := s.payload;
    assert payload.(status := MANAGED) == Payload(payload.id, "<managed-status>", payload.target, payload.details);
    if s.payload.status in {"active", "disabled"} {
      assert CanonicalOverview(cfg, s) <==> s == Spec(cfg.overview.payload.(status := s.payload.status), cfg.overview.extra);
    }
  }

  /** Distinct rows have distinct fingerprints, of either kind. */
  lemma PrintsDiffer(cfg: Config, cat: Catalog, i: string, j: string)
    requires Sane(cfg) && Keyed(cat) && i in cat && j in cat
    requires Managed(cfg, cat[i]) == Managed(cfg, cat[j]) || Exact(cfg, cat[i]) == Exact(cfg, cat[j])
    ensures i == j
  {
    if Managed(cfg, cat[i]) == Managed(cfg, cat[j]) { FingerprintNamesOne(cfg, cat[i], cat[j]); }
  }

  /** As many rows as fingerprints is each fingerprint having its row. */
  lemma {:induction false} CountIff(ids: set<string>, f: string -> string, family: set<string>)
    requires forall i :: i in ids ==> f(i) in family
    requires forall i, j :: i in ids && j in ids && f(i) == f(j) ==> i == j
    ensures |ids| == |family| <==> forall p :: p in family ==> p in Image(ids, f)
    ensures |ids| == 0 <==> ids == {}
  {
    ImageSize(ids, f);
    SubsetSize(Image(ids, f), family);
    if forall p :: p in family ==> p in Image(ids, f) { assert Image(ids, f) == family; }
  }

  /** The rows of a family by fingerprint without status. */
  function Of(cfg: Config, cat: Catalog, family: set<string>): set<string> {
    set id | id in cat && Noncanonical(cfg, cat[id]) && Managed(cfg, cat[id]) in family
  }

  lemma {:induction false} NoneIff(cfg: Config, cat: Catalog, family: set<string>)
    ensures Of(cfg, cat, family) == {} <==> NoneOf(cfg, cat, family)
  {
    forall id | id in cat
      ensures id in Of(cfg, cat, family) <==> Legacy(cfg, cat[id]) && Shape(cfg, cat[id]) in family
    {
      LegacyIff(cfg, cat[id]);
    }
  }

  /** A family is whole in one status exactly when all are there and all have it. */
  lemma {:induction false} WholeIff(cfg: Config, cat: Catalog, family: set<string>, status: string)
    requires Sane(cfg) && Keyed(cat)
    ensures AllWith(cfg, cat, family, status) <==>
              |Of(cfg, cat, family)| == |family| && forall id :: id in Of(cfg, cat, family) ==> Is(cat[id], status)
  {
    var ids := Of(cfg, cat, family);
    var g := (id: string) => if id in cat then Managed(cfg, cat[id]) else "";
    forall i, j | i in ids && j in ids && g(i) == g(j) ensures i == j { PrintsDiffer(cfg, cat, i, j); }
    CountIff(ids, g, family);
    forall id | id in cat ensures Legacy(cfg, cat[id]) <==> Noncanonical(cfg, cat[id])
      ensures Shape(cfg, cat[id]) == g(id)
    {
      LegacyIff(cfg, cat[id]);
    }
    if AllWith(cfg, cat, family, status) {
      forall p | p in family ensures p in Image(ids, g) {
        var id :| Shaped(cfg, cat, id, p) && cat[id].payload.status == status;
        assert id in ids;
      }
      forall id | id in ids ensures Is(cat[id], status) {
        var j :| Shaped(cfg, cat, j, g(id)) && cat[j].payload.status == status;
        PrintsDiffer(cfg, cat, id, j);
      }
    }
    if |ids| == |family| && forall id :: id in ids ==> Is(cat[id], status) {
      forall p | p in family ensures exists id :: Shaped(cfg, cat, id, p) && cat[id].payload.status == status {
        assert p in Image(ids, g);
        var id :| id in ids && g(id) == p;
        assert Shaped(cfg, cat, id, p) && cat[id].payload.status == status;
      }
    }
  }

  lemma {:induction false} UntouchedIff(cfg: Config, cat: Catalog)
    requires Sane(cfg) && Keyed(cat)
    ensures AllOrNone(|UnchangedIds(cfg, cat)|, cfg.untouched) <==> NoneUntouched(cfg, cat) || AllUntouched(cfg, cat)
  {
    var ids := UnchangedIds(cfg, cat);
    var g := (id: string) => if id in cat then Exact(cfg, cat[id]) else "";
    forall i, j | i in ids && j in ids && g(i) == g(j) ensures i == j { PrintsDiffer(cfg, cat, i, j); }
    CountIff(ids, g, cfg.untouched);
    forall id | id in cat
      ensures id in ids <==> Legacy(cfg, cat[id]) && cfg.hash(cat[id].payload) in cfg.untouched
    {
      LegacyIff(cfg, cat[id]);
    }
    assert ids == {} <==> NoneUntouched(cfg, cat);
    assert AllUntouched(cfg, cat) <==> forall p :: p in cfg.untouched ==> p in Image(ids, g) by {
      forall p | p in cfg.untouched ensures p in Image(ids, g) <==> exists id :: Same(cfg, cat, id, p) {
        if p in Image(ids, g) {
          var id :| id in ids && g(id) == p;
          assert Same(cfg, cat, id, p);
        }
        if exists id :: Same(cfg, cat, id, p) {
          var id :| Same(cfg, cat, id, p);
          assert id in ids && g(id) == p;
        }
      }
    }
  }

  // ---------------------------------------------------------------- families

  lemma {:induction false} StatusSizes(cat: Catalog, ids: set<string>, status: string)
    requires ids <= cat.Keys
    ensures |WithStatus(cat, ids, status)| == |ids| <==> forall id :: id in ids ==> Is(cat[id], status)
    ensures WithStatus(cat, ids, status) == {} <==> forall id :: id in ids ==> !Is(cat[id], status)
  {
    var some := WithStatus(cat, ids, status);
    SubsetSize(some, ids);
    if forall id :: id in ids ==> Is(cat[id], status) { assert some == ids; }
    if |some| == |ids| {
      forall id | id in ids ensures Is(cat[id], status) { assert id in some; }
    }
    if some == {} {
      forall id | id in ids ensures !Is(cat[id], status) { assert id !in some; }
    }
  }

  lemma {:induction false} RetiredIff(cfg: Config, cat: Catalog)
    requires Sane(cfg) && Keyed(cat)
    ensures LegacyRetired(cfg, cat) <==> Retired(cfg, cat)
  {
    var ids := AuthorizedIds(cfg, cat);
    assert ids == Of(cfg, cat, cfg.authorized);
    NoneIff(cfg, cat, cfg.authorized);
    WholeIff(cfg, cat, cfg.authorized, "disabled");
    StatusSizes(cat, ids, "disabled");
    StatusSizes(cat, ids, "active");
    assert |ids| == 0 <==> ids == {};
  }

  lemma {:induction false} ReadyIff(cfg: Config, cat: Catalog)
    requires Sane(cfg) && Keyed(cat)
    ensures LegacyReady(cfg, cat) <==> AllWith(cfg, cat, cfg.authorized, "active")
    ensures LegacyReady(cfg, cat) ==> |WithStatus(cat, AuthorizedIds(cfg, cat), "active")| == |cfg.authorized|
  {
    var ids := AuthorizedIds(cfg, cat);
    assert ids == Of(cfg, cat, cfg.authorized);
    WholeIff(cfg, cat, cfg.authorized, "active");
    StatusSizes(cat, ids, "active");
    StatusSizes(cat, ids, "disabled");
  }

  lemma {:induction false} UnknownIff(cfg: Config, cat: Catalog)
    ensures UnknownIds(cfg, cat) == {} <==>
              forall id :: id in cat && Legacy(cfg, cat[id]) ==>
                Shape(cfg, cat[id]) in cfg.authorized + cfg.disabled || cfg.hash(cat[id].payload) in cfg.untouched
  {
    forall id | id in cat
      ensures id in UnknownIds(cfg, cat) <==>
                && Legacy(cfg, cat[id])
                && !(Shape(cfg, cat[id]) in cfg.authorized + cfg.disabled || cfg.hash(cat[id].payload) in cfg.untouched)
    {
      LegacyIff(cfg, cat[id]);
    }
  }

  lemma {:induction false} AccountedIff(cfg: Config, cat: Catalog)
    requires Sane(cfg) && Keyed(cat)
    ensures OthersKnown(cfg, cat) <==> Accounted(cfg, cat)
  {
    var ids := DisabledIds(cfg, cat);
    assert ids == Of(cfg, cat, cfg.disabled);
    NoneIff(cfg, cat, cfg.disabled);
    WholeIff(cfg, cat, cfg.disabled, "disabled");
    UntouchedIff(cfg, cat);
    UnknownIff(cfg, cat);
    assert |ids| == 0 <==> ids == {};
  }

  // ---------------------------------------------------------------- states

  /** Neither canonical row is there. */
  predicate Bare(cat: Catalog) {
    "oa.list_pending_workflows" !in cat && "oa.list_system_messages" !in cat
  }

  predicate HasBoth(cat: Catalog) {
    "oa.list_pending_workflows" in cat && "oa.list_system_messages" in cat
  }

  ghost predicate IsEmpty(cfg: Config, cat: Catalog) {
    Bare(cat) && forall id :: id in cat ==> !Legacy(cfg, cat[id])
  }

  ghost predicate IsLegacy(cfg: Config, cat: Catalog) {
    Bare(cat) && AllWith(cfg, cat, cfg.authorized, "active") && Accounted(cfg, cat)
  }

  ghost predicate IsOutdated(cfg: Config, cat: Catalog) {
    && HasBoth(cat) && cfg.hash(cat["oa.list_pending_workflows"].payload) in cfg.predecessors
    && (cat["oa.list_pending_workflows"] == cfg.pending <==> cat["oa.list_system_messages"] != cfg.messages)
    && Retired(cfg, cat) && Accounted(cfg, cat)
  }

  ghost predicate IsApplied(cfg: Config, cat: Catalog) {
    && HasBoth(cat) && cat["oa.list_pending_workflows"] == cfg.pending && cat["oa.list_system_messages"] == cfg.messages
    && Retired(cfg, cat) && Accounted(cfg, cat)
  }

  lemma {:induction false} EmptyIff(cfg: Config, cat: Catalog)
    ensures Found(cat) == {} <==> Bare(cat)
    ensures Found(cat) == {} && Others(cfg, cat) == {} <==> IsEmpty(cfg, cat)
  {
    assert PENDING in Found(cat) <==> PENDING in cat;
    assert MESSAGES in Found(cat) <==> MESSAGES in cat;
    assert Found(cat) <= {PENDING, MESSAGES};
    forall id | id in cat ensures id in Others(cfg, cat) <==> Legacy(cfg, cat[id]) { LegacyIff(cfg, cat[id]); }
  }

  lemma {:induction false} TwoSizes(s: set<string>)
    requires s <= REQUIRED
    ensures |s| == 2 <==> PENDING in s && MESSAGES in s
    ensures |s| == 1 <==> (PENDING in s <==> MESSAGES !in s)
  {
    RequiredAreTwo();
    assert s == (if PENDING in s then {PENDING} else {}) + (if MESSAGES in s then {MESSAGES} else {});
  }

  lemma {:induction false} CanonicalIff(cfg: Config, cat: Catalog)
    ensures |Found(cat)| == |REQUIRED| <==> HasBoth(cat)
    ensures HasBoth(cat) ==> (|Valid(cfg, cat)| == 1 <==> (cat[PENDING] == cfg.pending <==> cat[MESSAGES] != cfg.messages))
    ensures |Valid(cfg, cat)| == |REQUIRED| <==> HasBoth(cat) && cat[PENDING] == cfg.pending && cat[MESSAGES] == cfg.messages
  {
    RequiredAreTwo();
    TwoSizes(Found(cat));
    TwoSizes(Valid(cfg, cat));
  }

  /**
   * The plan of every catalog, in terms of its rows: which of the five states it is in, and how many
   * rows an application inserts, disables and updates.
   */
  lemma {:induction false} PlanIff(cfg: Config, cat: Catalog)
    requires Sane(cfg) && Keyed(cat)
    ensures PlanRegistry(cfg, cat) ==
              if IsEmpty(cfg, cat) then Plan(ReadyEmpty, 2, 0, 0)
              else if IsLegacy(cfg, cat) then Plan(ReadyLegacy, 2, |cfg.authorized|, 0)
              else if IsOutdated(cfg, cat) then Plan(ReadyCanonicalUpdate, 0, 0, 1)
              else if IsApplied(cfg, cat) then Plan(AlreadyApplied, 0, 0, 0)
              else Plan(PreconditionFailed, 0, 0, 0)
  {
    RequiredAreTwo();
    EmptyIff(cfg, cat);
    ReadyIff(cfg, cat);
    RetiredIff(cfg, cat);
    AccountedIff(cfg, cat);
    CanonicalIff(cfg, cat);
  }
}
