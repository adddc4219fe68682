/** Tenants: the repository, creation by hand, and onboarding from a signup callback. */
module Onboarding {
  import opened Common
  import opened PyText
  import opened Naming

  datatype Status = Provisioning | Active

  datatype Tenant = Tenant(id: string, name: string, slug: string, status: Status, phone: Option<string>)

  ghost predicate DistinctTenants(tenants: seq<Tenant>) {
    forall i, j :: 0 <= i < j < |tenants| ==> tenants[i].id != tenants[j].id
  }

  function TenantIndex(tenants: seq<Tenant>, id: string): (i: int)
    ensures -1 <= i < |tenants|
    ensures i >= 0 ==> tenants[i].id == id
    ensures i == -1 <==> forall t :: t in tenants ==> t.id != id
  {
    if tenants == [] then -1
    else
      var n := |tenants| - 1;
      assert tenants == tenants[..n] + [tenants[n]];
      var i := TenantIndex(tenants[..n], id);
      if i >= 0 then i else if tenants[n].id == id then n else -1
  }

  function WithSlug(slug: string): Tenant -> bool {
    (t: Tenant) => t.slug == slug
  }

  function WithPhone(phone: string): Tenant -> bool {
    (t: Tenant) => t.phone == Some(phone)
  }

  /** The first tenant that satisfies `p`. */
  function FindTenant(tenants: seq<Tenant>, p: Tenant -> bool): (found: Option<Tenant>)
    ensures found.Some? ==> found.value in tenants && p(found.value)
    ensures found.None? <==> forall t :: t in tenants ==> !p(t)
  {
    if tenants == [] then None
    else if p(tenants[0]) then Some(tenants[0])
    else
      assert tenants == [tenants[0]] + tenants[1..];
      FindTenant(tenants[1..], p)
  }

  function FindSlug(tenants: seq<Tenant>, slug: string): (found: Option<Tenant>)
    ensures found.Some? ==> found.value in tenants && found.value.slug == slug
    ensures found.None? <==> forall t :: t in tenants ==> t.slug != slug
  {
    FindTenant(tenants, WithSlug(slug))
  }

  function FindPhone(tenants: seq<Tenant>, phone: string): (found: Option<Tenant>)
    ensures found.Some? ==> found.value in tenants && found.value.phone == Some(phone)
    ensures found.None? <==> forall t :: t in tenants ==> t.phone != Some(phone)
  {
    FindTenant(tenants, WithPhone(phone))
  }

  lemma {:induction false} FindIsFirst(tenants: seq<Tenant>, p: Tenant -> bool)
    ensures IsFirst(tenants, p, FindTenant(tenants, p))
    decreases |tenants|
  {
    if tenants != [] && !p(tenants[0]) {
      var rest := tenants[1..];
      FindIsFirst(rest, p);
      var found := FindTenant(rest, p);
      if found.Some? {
        var i :| 0 <= i < |rest| && rest[i] == found.value && forall j :: 0 <= j < i ==> !p(rest[j]);
        forall j | 0 <= j < i + 1 ensures !p(tenants[j]) {
          if j > 0 {
            assert tenants[j] == rest[j - 1];
          }
        }
        assert tenants[i + 1] == rest[i];
      }
    }
  }

  function StoreTenant(tenants: seq<Tenant>, t: Tenant): seq<Tenant> {
    var i := TenantIndex(tenants, t.id);
    if i >= 0 then tenants[i := t] else tenants + [t]
  }

  class TenantRepository {
    var tenants: seq<Tenant>

    constructor ()
      ensures tenants == []
    {
      tenants := [];
    }

    method Add(t: Tenant)
      modifies this
      ensures tenants == StoreTenant(old(tenants), t)
    {
      var i := TenantIndex(tenants, t.id);
      if i >= 0 {
        tenants := tenants[i := t];
      } else {
        tenants := tenants + [t];
      }
    }

    method Get(id: string) returns (found: Option<Tenant>)
      ensures found == var i := TenantIndex(tenants, id); if i >= 0 then Some(tenants[i]) else None
    {
      var i := TenantIndex(tenants, id);
      found := if i >= 0 then Some(tenants[i]) else None;
    }

    /** The scan behind both lookups: `next(...)` over the values. */
    method FirstWith(p: Tenant -> bool) returns (found: Option<Tenant>)
      ensures IsFirst(tenants, p, found) && found == FindTenant(tenants, p)
    {
      FindIsFirst(tenants, p);
      for i := 0 to |tenants|
        invariant forall j :: 0 <= j < i ==> !p(tenants[j])
      {
        if p(tenants[i]) {
          FirstIsUnique(tenants, p, Some(tenants[i]), FindTenant(tenants, p));
          return Some(tenants[i]);
        }
      }
      FirstIsUnique(tenants, p, None, FindTenant(tenants, p));
      return None;
    }

    method BySlug(slug: string) returns (found: Option<Tenant>)
      ensures IsFirst(tenants, WithSlug(slug), found) && found == FindSlug(tenants, slug)
      ensures found.None? <==> forall t :: t in tenants ==> t.slug != slug
      ensures found.Some? ==> found.value in tenants && found.value.slug == slug
    {
      found := FirstWith(WithSlug(slug));
    }

    method ByPhoneNumberId(phone: string) returns (found: Option<Tenant>)
      ensures IsFirst(tenants, WithPhone(phone), found) && found == FindPhone(tenants, phone)
      ensures found.None? <==> forall t :: t in tenants ==> t.phone != Some(phone)
      ensures found.Some? ==> found.value in tenants && found.value.phone == Some(phone)
    {
      found := FirstWith(WithPhone(phone));
    }

    /** False stands for the `KeyError` of an unknown tenant. */
    method Update(t: Tenant) returns (known: bool)
      modifies this
      ensures known <==> TenantIndex(old(tenants), t.id) >= 0
      ensures tenants == if known then StoreTenant(old(tenants), t) else old(tenants)
    {
      var i := TenantIndex(tenants, t.id);
      if i < 0 {
        return false;
      }
      tenants := tenants[i := t];
      return true;
    }
  }

  // ---------- the slug search ----------

  ghost function SlugsOf(tenants: seq<Tenant>): set<string> {
    set t | t in tenants :: t.slug
  }

  ghost function CandidatesBelow(base: string, k: nat): set<string> {
    set j | 1 <= j < k :: Candidate(base, j)
  }

  lemma OneMoreCandidate(base: string, k: nat)
    requires k >= 1
    ensures CandidatesBelow(base, k + 1) == CandidatesBelow(base, k) + {Candidate(base, k)}
    ensures Candidate(base, k) !in CandidatesBelow(base, k)
  {
    forall j | 1 <= j < k ensures Candidate(base, j) != Candidate(base, k) {
      CandidatesDiffer(base, j, k);
    }
  }

  /** The candidates are pairwise distinct, so the first k - 1 of them are k - 1 slugs. */
  lemma {:induction false} CountCandidates(base: string, k: nat)
    requires k >= 1
    ensures |CandidatesBelow(base, k)| == k - 1
    decreases k
  {
    if k == 1 {
      assert CandidatesBelow(base, k) == {};
    } else {
      CountCandidates(base, k - 1);
      OneMoreCandidate(base, k - 1);
    }
  }

  /** One more taken candidate leaves fewer slugs that the search can still run into. */
  lemma SearchShrinks(taken: set<string>, base: string, k: nat)
    requires k >= 1 && Candidate(base, k) in taken
    ensures |taken - CandidatesBelow(base, k + 1)| < |taken - CandidatesBelow(base, k)|
  {
    OneMoreCandidate(base, k);
    assert Candidate(base, k) in taken - CandidatesBelow(base, k);
    assert taken - CandidatesBelow(base, k + 1) == (taken - CandidatesBelow(base, k)) - {Candidate(base, k)};
  }

  ghost function FirstFree(taken: set<string>, base: string, k: nat): string
    requires k >= 1
    decreases |taken - CandidatesBelow(base, k)|
  {
    if Candidate(base, k) !in taken then Candidate(base, k)
    else
      SearchShrinks(taken, base, k);
      FirstFree(taken, base, k + 1)
  }

  lemma FreeAtOnce(taken: set<string>, base: string, k: nat)
    requires k >= 1 && CandidatesBelow(base, k) <= taken
    ensures k <= |taken| + 1 && forall j :: 1 <= j < k ==> Candidate(base, j) in taken
  {
    forall j | 1 <= j < k ensures Candidate(base, j) in taken {
      assert Candidate(base, j) in CandidatesBelow(base, k);
    }
    CountCandidates(base, k);
    SubsetSize(CandidatesBelow(base, k), taken);
  }

  lemma SearchGoesOn(taken: set<string>, base: string, k: nat)
    requires k >= 1 && CandidatesBelow(base, k) <= taken && Candidate(base, k) in taken
    ensures CandidatesBelow(base, k + 1) <= taken
    ensures |taken - CandidatesBelow(base, k + 1)| < |taken - CandidatesBelow(base, k)|
    ensures FirstFree(taken, base, k) == FirstFree(taken, base, k + 1)
  {
    SearchShrinks(taken, base, k);
    OneMoreCandidate(base, k);
  }

  /** The search finds the least free candidate, after at most as many tries as there are slugs, plus one. */
  lemma {:induction false} FirstFreeIsLeast(taken: set<string>, base: string, k: nat) returns (found: nat)
    requires k >= 1 && CandidatesBelow(base, k) <= taken
    ensures found >= k && FirstFree(taken, base, k) == Candidate(base, found)
    ensures Candidate(base, found) !in taken
    ensures forall j :: 1 <= j < found ==> Candidate(base, j) in taken
    ensures found <= |taken| + 1
    decreases |taken - CandidatesBelow(base, k)|
  {
    if Candidate(base, k) !in taken {
      found := k;
      FreeAtOnce(taken, base, k);
    } else {
      SearchGoesOn(taken, base, k);
      found := FirstFreeIsLeast(taken, base, k + 1);
    }
  }

  ghost function UniqueSlugOf(tenants: seq<Tenant>, base: string): string {
    FirstFree(SlugsOf(tenants), base, 1)
  }

  /** Not taken; the base itself if that is free, else `base-k` for the least free k from 2 on. */
  lemma UniqueSlugIsMinimal(tenants: seq<Tenant>, base: string)
    ensures var slug := UniqueSlugOf(tenants, base);
      && slug !in SlugsOf(tenants)
      && (base !in SlugsOf(tenants) ==> slug == base)
      && (base in SlugsOf(tenants) ==>
            exists k: nat :: 2 <= k <= |SlugsOf(tenants)| + 1 && slug == base + "-" + NatText(k)
              && forall j :: 2 <= j < k ==> base + "-" + NatText(j) in SlugsOf(tenants))
  {
    var taken := SlugsOf(tenants);
    var k := FirstFreeIsLeast(taken, base, 1);
    forall j: nat | 2 <= j < k ensures base + "-" + NatText(j) in taken {
      assert Candidate(base, j) in taken;
    }
    if base in taken {
      assert Candidate(base, 1) == base;
      assert k >= 2 && UniqueSlugOf(tenants, base) == base + "-" + NatText(k);
    }
  }

  // ---------- creating and onboarding ----------

  datatype Created = Created(tenant: Tenant) | SlugTaken

  class TenantManager {
    const repository: TenantRepository

    constructor (repository: TenantRepository)
      ensures this.repository == repository
    {
      this.repository := repository;
    }

    method Create(name: string, slug: string, id: string) returns (result: Created)
      modifies repository
      ensures result == if FindSlug(old(repository.tenants), slug).Some? then SlugTaken
                        else Created(Tenant(id, name, slug, Provisioning, None))
      ensures repository.tenants == CreateAfter(old(repository.tenants), name, slug, id)
    {
      var existing := repository.BySlug(slug);
      if existing.Some? {
        return SlugTaken;
      }
      var tenant := Tenant(id, name, slug, Provisioning, None);
      repository.Add(tenant);
      return Created(tenant);
    }
  }

  function CreateAfter(tenants: seq<Tenant>, name: string, slug: string, id: string): seq<Tenant> {
    if FindSlug(tenants, slug).Some? then tenants
    else StoreTenant(tenants, Tenant(id, name, slug, Provisioning, None))
  }

  /** Onboarding up to the point where it waits for the runtime. */
  ghost function BeginAfter(tenants: seq<Tenant>, phone: string, name: string, lower: string -> string,
                            id: string): seq<Tenant> {
    if FindPhone(tenants, phone).Some? then tenants
    else StoreTenant(tenants, Tenant(id, name, UniqueSlugOf(tenants, Slugify(name, lower)), Provisioning, Some(phone)))
  }

  /** The rest, once the runtime is up. */
  function ActivateAfter(tenants: seq<Tenant>, id: string): seq<Tenant> {
    var i := TenantIndex(tenants, id);
    if i >= 0 then tenants[i := tenants[i].(status := Active)] else tenants
  }

  /** Which of the external steps of one onboarding succeed. */
  datatype Steps = Steps(rendered: bool, spawned: bool, published: bool)

  datatype Onboarded = Onboarded(tenant: Tenant, isNew: bool) | Failed

  class OnboardingFlow {
    const manager: TenantManager

    constructor (manager: TenantManager)
      ensures this.manager == manager
    {
      this.manager := manager;
    }

    method UniqueSlug(base: string) returns (candidate: string)
      ensures candidate == UniqueSlugOf(manager.repository.tenants, base)
    {
      candidate := base;
      var suffix := 2;
      ghost var taken := SlugsOf(manager.repository.tenants);
      var existing := manager.repository.BySlug(candidate);
      while existing.Some?
        invariant suffix >= 2 && candidate == Candidate(base, suffix - 1)
        invariant existing == FindSlug(manager.repository.tenants, candidate)
        invariant FirstFree(taken, base, 1) == FirstFree(taken, base, suffix - 1)
        decreases |taken - CandidatesBelow(base, suffix - 1)|
      {
        assert candidate in taken;
        SearchShrinks(taken, base, suffix - 1);
        candidate := base + "-" + NatText(suffix);
        suffix := suffix + 1;
        existing := manager.repository.BySlug(candidate);
      }
      assert candidate !in taken;
    }

    /** Up to the first suspension point: create under a free slug, then attach the phone. */
    method Provision(phone: string, name: string, lower: string -> string, id: string) returns (tenant: Tenant)
      requires TenantIndex(manager.repository.tenants, id) == -1
      requires FindPhone(manager.repository.tenants, phone).None?
      modifies manager.repository
      ensures tenant ==
        Tenant(id, name, UniqueSlugOf(old(manager.repository.tenants), Slugify(name, lower)), Provisioning, Some(phone))
      ensures manager.repository.tenants == BeginAfter(old(manager.repository.tenants), phone, name, lower, id)
    {
      ghost var before := manager.repository.tenants;
      var slug := UniqueSlug(Slugify(name, lower));
      UniqueSlugIsMinimal(before, Slugify(name, lower));
      NotAmongSlugs(before, slug);
      var created := manager.Create(name, slug, id);
      tenant := created.tenant.(phone := Some(phone));
      StoreTwice(before, created.tenant, tenant);
      var known := manager.repository.Update(tenant);
    }

    method Run(phone: string, name: string, lower: string -> string, id: string, steps: Steps)
      returns (result: Onboarded)
      requires TenantIndex(manager.repository.tenants, id) == -1
      modifies manager.repository
      ensures RunOutcome(result, manager.repository.tenants)
        == OutcomeOf(old(manager.repository.tenants), phone, name, lower, id, steps)
    {
      var existing := manager.repository.ByPhoneNumberId(phone);
      if existing.Some? {
        return Onboarded(existing.value, false);
      }
      ghost var before := manager.repository.tenants;
      var tenant := Provision(phone, name, lower, id);
      if !steps.rendered {
        return Failed;
      }
      StoredLast(before, tenant);
      var found := manager.repository.Get(id);
      if !steps.spawned {
        return Failed;
      }
      var activated := found.value.(status := Active);
      var known := manager.repository.Update(activated);
      if !steps.published {
        return Failed;
      }
      return Onboarded(activated, true);
    }
  }

  datatype RunOutcome = RunOutcome(result: Onboarded, tenants: seq<Tenant>)

  ghost function OutcomeOf(tenants: seq<Tenant>, phone: string, name: string, lower: string -> string, id: string,
                           steps: Steps): RunOutcome {
    var slug := UniqueSlugOf(tenants, Slugify(name, lower));
    var begun := BeginAfter(tenants, phone, name, lower, id);
    if FindPhone(tenants, phone).Some? then RunOutcome(Onboarded(FindPhone(tenants, phone).value, false), tenants)
    else if !steps.rendered || !steps.spawned then RunOutcome(Failed, begun)
    else
      RunOutcome(if steps.published then Onboarded(Tenant(id, name, slug, Active, Some(phone)), true) else Failed,
                 ActivateAfter(begun, id))
  }

  lemma StoredLast(tenants: seq<Tenant>, t: Tenant)
    requires TenantIndex(tenants, t.id) == -1
    ensures StoreTenant(tenants, t) == tenants + [t] && TenantIndex(tenants + [t], t.id) == |tenants|
  {
    assert (tenants + [t])[..|tenants|] == tenants;
  }

  lemma StoreTwice(tenants: seq<Tenant>, t: Tenant, u: Tenant)
    requires TenantIndex(tenants, t.id) == -1 && u.id == t.id
    ensures StoreTenant(StoreTenant(tenants, t), u) == StoreTenant(tenants, u)
    ensures TenantIndex(StoreTenant(tenants, t), u.id) >= 0
  {
    StoredLast(tenants, t);
  }

  lemma NotAmongSlugs(tenants: seq<Tenant>, slug: string)
    requires slug !in SlugsOf(tenants)
    ensures FindSlug(tenants, slug).None?
  {
    forall t | t in tenants ensures t.slug != slug {
      assert t.slug in SlugsOf(tenants);
    }
  }

  // ---------- runs ----------

  datatype Event =
    | Create(name: string, slug: string, id: string)
    | Begin(phone: string, name: string, lower: string -> string, id: string)
    | Activate(id: string)

  ghost function Step(tenants: seq<Tenant>, e: Event): seq<Tenant> {
    match e
    case Create(name, slug, id) => CreateAfter(tenants, name, slug, id)
    case Begin(phone, name, lower, id) => BeginAfter(tenants, phone, name, lower, id)
    case Activate(id) => ActivateAfter(tenants, id)
  }

  ghost function RunOf(events: seq<Event>): seq<Tenant> {
    if events == [] then [] else Step(RunOf(events[..|events| - 1]), events[|events| - 1])
  }

  /** Generated ids are new. */
  ghost predicate FreshIds(events: seq<Event>) {
    events == [] ||
    (var front, e := events[..|events| - 1], events[|events| - 1];
     FreshIds(front) && (e.Activate? || TenantIndex(RunOf(front), e.id) == -1))
  }

  ghost predicate WellKept(tenants: seq<Tenant>) {
    && DistinctTenants(tenants)
    && (forall i, j :: 0 <= i < j < |tenants| ==> tenants[i].slug != tenants[j].slug)
    && forall i, j :: 0 <= i < j < |tenants| && tenants[i].phone.Some? ==> tenants[i].phone != tenants[j].phone
  }

  lemma AppendKeepsWell(tenants: seq<Tenant>, t: Tenant)
    requires WellKept(tenants) && TenantIndex(tenants, t.id) == -1 && FindSlug(tenants, t.slug).None?
    requires t.phone.Some? ==> FindPhone(tenants, t.phone.value).None?
    ensures WellKept(StoreTenant(tenants, t))
  {
    forall i | 0 <= i < |tenants|
      ensures tenants[i].id != t.id && tenants[i].slug != t.slug && (t.phone.Some? ==> tenants[i].phone != t.phone)
    {
      assert tenants[i] in tenants;
    }
  }

  lemma BeginKeepsWell(tenants: seq<Tenant>, e: Event)
    requires WellKept(tenants) && e.Begin? && TenantIndex(tenants, e.id) == -1
    ensures WellKept(Step(tenants, e))
  {
    var slug := UniqueSlugOf(tenants, Slugify(e.name, e.lower));
    UniqueSlugIsMinimal(tenants, Slugify(e.name, e.lower));
    NotAmongSlugs(tenants, slug);
    if FindPhone(tenants, e.phone).None? {
      AppendKeepsWell(tenants, Tenant(e.id, e.name, slug, Provisioning, Some(e.phone)));
    }
  }

  lemma StepKeepsWell(tenants: seq<Tenant>, e: Event)
    requires WellKept(tenants) && (e.Activate? || TenantIndex(tenants, e.id) == -1)
    ensures WellKept(Step(tenants, e))
  {
    match e
    case Create(name, slug, id) =>
      if FindSlug(tenants, slug).None? {
        AppendKeepsWell(tenants, Tenant(id, name, slug, Provisioning, None));
      }
    case Begin(_, _, _, _) => BeginKeepsWell(tenants, e);
    case Activate(_) =>
  }

  /** In every run slugs stay distinct, and every phone number id has at most one tenant. */
  lemma {:induction false} SlugsAndPhonesStayUnique(events: seq<Event>)
    requires FreshIds(events)
    ensures WellKept(RunOf(events))
    decreases |events|
  {
    if events != [] {
      var n := |events| - 1;
      SlugsAndPhonesStayUnique(events[..n]);
      StepKeepsWell(RunOf(events[..n]), events[n]);
    }
  }

  /** A tenant keeps its id, slug and phone through every later step. */
  lemma StepKeepsTenant(tenants: seq<Tenant>, e: Event, k: nat)
    requires k < |tenants| && (e.Activate? || TenantIndex(tenants, e.id) == -1)
    ensures k < |Step(tenants, e)|
    ensures var t := Step(tenants, e)[k];
      t.id == tenants[k].id && t.slug == tenants[k].slug && t.phone == tenants[k].phone
  {
  }

  lemma KnownAfterBegin(tenants: seq<Tenant>, e: Event) returns (k: nat)
    requires e.Begin? && TenantIndex(tenants, e.id) == -1
    ensures k < |Step(tenants, e)| && Step(tenants, e)[k].phone == Some(e.phone)
  {
    var found := FindPhone(tenants, e.phone);
    if found.Some? {
      k :| 0 <= k < |tenants| && tenants[k] == found.value;
    } else {
      k := |tenants|;
    }
  }

  lemma {:induction false} PhoneStaysKnown(events: seq<Event>, i: nat) returns (k: nat)
    requires FreshIds(events) && i < |events| && events[i].Begin?
    ensures k < |RunOf(events)| && RunOf(events)[k].phone == Some(events[i].phone)
    decreases |events|
  {
    var n := |events| - 1;
    if i == n {
      k := KnownAfterBegin(RunOf(events[..n]), events[n]);
    } else {
      k := PhoneStaysKnown(events[..n], i);
      StepKeepsTenant(RunOf(events[..n]), events[n], k);
    }
  }

  /** Replaying a signup callback, however much later and under whatever name, changes nothing. */
  lemma ReplayChangesNothing(events: seq<Event>, i: nat, replay: Event)
    requires FreshIds(events) && i < |events| && events[i].Begin? && replay.Begin?
    requires replay.phone == events[i].phone
    ensures Step(RunOf(events), replay) == RunOf(events)
    ensures exists t :: t in RunOf(events) && t.phone == Some(replay.phone)
  {
    var k := PhoneStaysKnown(events, i);
    assert RunOf(events)[k] in RunOf(events);
  }

  /** Every onboarded slug is a slug in the sense that keeps buyer ids of tenants apart. */
  lemma OnboardedSlugIsSlug(tenants: seq<Tenant>, name: string, lower: string -> string)
    ensures IsSlug(UniqueSlugOf(tenants, Slugify(name, lower)))
  {
    SlugifyYieldsSlug(name, lower);
    var k := FirstFreeIsLeast(SlugsOf(tenants), Slugify(name, lower), 1);
    CandidateIsSlug(Slugify(name, lower), k);
  }
}

/** What each tenant of a run carries from the event that made it. */
module OnboardingFacts {
  import opened Common
  import opened PyText
  import opened Naming
  import opened Onboarding

  /** A creation under a slug that no tenant has, or an onboarding of a phone that no tenant has. */
  ghost predicate Makes(tenants: seq<Tenant>, e: Event, id: string) {
    match e
    case Create(_, slug, id') => id' == id && forall t :: t in tenants ==> t.slug != slug
    case Begin(phone, _, _, id') => id' == id && forall t :: t in tenants ==> t.phone != Some(phone)
    case Activate(_) => false
  }

  ghost function MadeBy(events: seq<Event>, id: string): Option<Event> {
    if events == [] then None
    else
      var n := |events| - 1;
      var before := MadeBy(events[..n], id);
      if before.None? && Makes(RunOf(events[..n]), events[n], id) then Some(events[n]) else before
  }

  /** Has the runtime come up since? */
  ghost predicate Activated(events: seq<Event>, id: string) {
    events != [] &&
    (var n := |events| - 1;
     Activated(events[..n], id) || (events[n] == Activate(id) && MadeBy(events[..n], id).Some?))
  }

  /** The base, or the base with a number from two on. */
  ghost predicate IsNumbered(slug: string, base: string) {
    slug == base || exists k: nat :: 2 <= k && slug == base + "-" + NatText(k)
  }

  ghost predicate IsTenant(t: Tenant, id: string, e: Event, active: bool)
    requires e.Create? || e.Begin?
  {
    && t.id == id && t.name == e.name && t.status == (if active then Active else Provisioning)
    && (e.Create? ==> t.slug == e.slug && t.phone == None)
    && (e.Begin? ==> t.phone == Some(e.phone) && IsNumbered(t.slug, Slugify(e.name, e.lower)))
  }

  /** There is one tenant with the id if an event made it, and none otherwise. */
  ghost predicate Carries(tenants: seq<Tenant>, id: string, made: Option<Event>, active: bool) {
    match made
    case None => !active && forall t :: t in tenants ==> t.id != id
    case Some(e) =>
      (e.Create? || e.Begin?) && exists i :: 0 <= i < |tenants| && IsTenant(tenants[i], id, e, active)
  }

  lemma ChosenSlugIsNumbered(tenants: seq<Tenant>, base: string)
    ensures IsNumbered(UniqueSlugOf(tenants, base), base)
  {
    UniqueSlugIsMinimal(tenants, base);
  }

  lemma NewTenantCarries(tenants: seq<Tenant>, t: Tenant, id: string, made: Option<Event>, active: bool)
    requires Carries(tenants, id, made, active) && TenantIndex(tenants, t.id) == -1
    ensures t.id != id ==> Carries(StoreTenant(tenants, t), id, made, active)
    ensures t.id == id ==> made.None? && !active && StoreTenant(tenants, t) == tenants + [t]
  {
    StoredLast(tenants, t);
    var after := tenants + [t];
    assert forall u :: u in after ==> u in tenants || u == t;
    if made.Some? {
      var i :| 0 <= i < |tenants| && IsTenant(tenants[i], id, made.value, active);
      assert tenants[i] in tenants && after[i] == tenants[i];
    }
  }

  lemma MadeCarries(tenants: seq<Tenant>, t: Tenant, id: string, e: Event)
    requires (e.Create? || e.Begin?) && IsTenant(t, id, e, false)
    ensures Carries(tenants + [t], id, Some(e), false)
  {
    assert (tenants + [t])[|tenants|] == t;
  }

  lemma CreateCarries(tenants: seq<Tenant>, e: Event, id: string, made: Option<Event>, active: bool)
    requires e.Create? && TenantIndex(tenants, e.id) == -1 && Carries(tenants, id, made, active)
    ensures Carries(Step(tenants, e), id, if made.None? && Makes(tenants, e, id) then Some(e) else made, active)
  {
    if FindSlug(tenants, e.slug).None? {
      var t := Tenant(e.id, e.name, e.slug, Provisioning, None);
      NewTenantCarries(tenants, t, id, made, active);
      if e.id == id {
        MadeCarries(tenants, t, id, e);
      }
    }
  }

  lemma BeginCarries(tenants: seq<Tenant>, e: Event, id: string, made: Option<Event>, active: bool)
    requires e.Begin? && TenantIndex(tenants, e.id) == -1 && Carries(tenants, id, made, active)
    ensures Carries(Step(tenants, e), id, if made.None? && Makes(tenants, e, id) then Some(e) else made, active)
  {
    if FindPhone(tenants, e.phone).None? {
      var base := Slugify(e.name, e.lower);
      var t := Tenant(e.id, e.name, UniqueSlugOf(tenants, base), Provisioning, Some(e.phone));
      ChosenSlugIsNumbered(tenants, base);
      NewTenantCarries(tenants, t, id, made, active);
      if e.id == id {
        MadeCarries(tenants, t, id, e);
      }
    }
  }

  lemma ActivateCarries(tenants: seq<Tenant>, e: Event, id: string, made: Option<Event>, active: bool)
    requires e.Activate? && DistinctTenants(tenants) && Carries(tenants, id, made, active)
    ensures Carries(Step(tenants, e), id, made, active || (e.id == id && made.Some?))
  {
    var after := ActivateAfter(tenants, e.id);
    if made.Some? {
      var i :| 0 <= i < |tenants| && IsTenant(tenants[i], id, made.value, active);
      assert tenants[i] in tenants;
      assert e.id == id ==> TenantIndex(tenants, e.id) == i;
      assert IsTenant(after[i], id, made.value, active || e.id == id);
    } else {
      forall t | t in after ensures t.id != id {
        var i :| 0 <= i < |after| && after[i] == t;
        assert tenants[i] in tenants;
      }
    }
  }

  /**
   * In every run there is a tenant for every id that an event made, and no other. It has the name, the
   * slug and the phone of that event, and is active exactly if its runtime came up since.
   */
  lemma {:induction false} TenantsCarrySignups(events: seq<Event>, id: string)
    requires FreshIds(events)
    ensures Carries(RunOf(events), id, MadeBy(events, id), Activated(events, id))
    decreases |events|
  {
    if events != [] {
      var n := |events| - 1;
      var tenants, e := RunOf(events[..n]), events[n];
      var made, active := MadeBy(events[..n], id), Activated(events[..n], id);
      TenantsCarrySignups(events[..n], id);
      SlugsAndPhonesStayUnique(events[..n]);
      match e
      case Create(_, _, _) => CreateCarries(tenants, e, id, made, active);
      case Begin(_, _, _, _) => BeginCarries(tenants, e, id, made, active);
      case Activate(_) => ActivateCarries(tenants, e, id, made, active);
    }
  }

  /**
   * One onboarding: a phone that some tenant has is answered with that tenant and changes nothing; any
   * other is stored in a new last tenant, which is active exactly if the template rendered and the
   * runtime came up, and reported exactly if the event was published as well.
   */
  lemma RunSays(tenants: seq<Tenant>, phone: string, name: string, lower: string -> string, id: string, steps: Steps)
    requires TenantIndex(tenants, id) == -1
    ensures var o := OutcomeOf(tenants, phone, name, lower, id, steps);
      if exists t :: t in tenants && t.phone == Some(phone) then
        && o.tenants == tenants && o.result.Onboarded? && !o.result.isNew
        && o.result.tenant in tenants && o.result.tenant.phone == Some(phone)
      else
        var slug := UniqueSlugOf(tenants, Slugify(name, lower));
        var t := Tenant(id, name, slug, if steps.rendered && steps.spawned then Active else Provisioning, Some(phone));
        && o.tenants == tenants + [t]
        && o.result == if steps.rendered && steps.spawned && steps.published then Onboarded(t, true) else Failed
  {
    if FindPhone(tenants, phone).None? {
      var t := Tenant(id, name, UniqueSlugOf(tenants, Slugify(name, lower)), Provisioning, Some(phone));
      StoredLast(tenants, t);
      var u := t.(status := Active);
      assert (tenants + [t])[|tenants| := u] == tenants + [u];
    }
  }
}
