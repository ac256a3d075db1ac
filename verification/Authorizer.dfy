/**
 Access by token or OIDC identity: team configurations are compiled into a
 directory of tokens, each one grant's alone, and four directories of merged
 principals, where an identity gets the merge of everything it finds. That is
 compared with searching the configurations directly.
 */
module Authorizer {
  import opened Text
  import opened AccessTokens
  import opened ModuleNames
  import opened Version

  const GLOBAL_ADMIN_TEAM := "platform-admin"
  const RUNTIME_ADMIN_TEAM := "bootstrap-admin"

  datatype TeamConfig = TeamConfig(
    team: string,
    readTokens: seq<string>, publishTokens: seq<string>, adminTokens: seq<string>,
    readRecords: seq<TokenRecord>, publishRecords: seq<TokenRecord>,
    publishOwners: seq<string>,
    emails: seq<string>, subjects: seq<string>, domains: seq<string>, groups: seq<string>,
    teamAdminEmails: seq<string>, teamAdminGroups: seq<string>,
    adminEmails: seq<string>, adminSubjects: seq<string>, adminGroups: seq<string>)

  datatype Principal = Principal(
    team: string, canRead: bool, canPublish: bool, canManageTeam: bool, canAdmin: bool,
    publishOwners: set<string>, managedTeams: set<string>)
  {
    predicate CanDeleteOwner(owner: string)
    {
      if canAdmin then true
      else if !canManageTeam then false
      else if managedTeams != {} then owner in managedTeams
      else team == owner
    }

    predicate CanPublishOwner(owner: string) { canPublish && owner in publishOwners }
  }

  datatype Identity = Identity(email: string, subject: string, groups: seq<string>)

  datatype Role = Publisher | TeamAdmin | Admin

  datatype Kind = Email | Subject | Domain | Group

  /* ---------- normalisation; `lower` stands for strings.ToLower ---------- */

  function NormalDomain(lower: string -> string, value: string): string
  {
    var v := lower(TrimSpace(value));
    if v != "" && v[0] == '@' then v[1..] else v
  }

  function EmailDomain(lower: string -> string, email: string): string
  {
    if '@' in email then NormalDomain(lower, After(email, '@')) else ""
  }

  function Normal(lower: string -> string, kind: Kind, value: string): string
  {
    match kind
    case Email => lower(TrimSpace(value))
    case Subject => TrimSpace(value)
    case Domain => NormalDomain(lower, value)
    case Group => lower(TrimSpace(value))
  }

  /* ---------- the direct search ---------- */

  /** What a configuration lists for a role under a kind of key. */
  function Values(cfg: TeamConfig, role: Role, kind: Kind): seq<string>
  {
    match (role, kind)
    case (Publisher, Email) => cfg.emails
    case (Publisher, Subject) => cfg.subjects
    case (Publisher, Domain) => cfg.domains
    case (Publisher, Group) => cfg.groups
    case (TeamAdmin, Email) => cfg.teamAdminEmails
    case (TeamAdmin, Group) => cfg.teamAdminGroups
    case (Admin, Email) => cfg.adminEmails
    case (Admin, Subject) => cfg.adminSubjects
    case (Admin, Group) => cfg.adminGroups
    case _ => []
  }

  function GroupKeys(lower: string -> string, groups: seq<string>): set<string>
  {
    if groups == [] then {} else GroupKeys(lower, groups[..|groups| - 1]) + {Normal(lower, Group, groups[|groups| - 1])}
  }

  /** The normalised keys an identity is looked up under. */
  function Keys(lower: string -> string, id: Identity, kind: Kind): set<string>
  {
    match kind
    case Group => GroupKeys(lower, id.groups)
    case Subject => {Normal(lower, Subject, id.subject)}
    case Email => {Normal(lower, Email, id.email)}
    case Domain =>
      if Normal(lower, Email, id.email) == "" then {} else {EmailDomain(lower, Normal(lower, Email, id.email))}
  }

  predicate Listed(lower: string -> string, cfg: TeamConfig, role: Role, kind: Kind, key: string)
  {
    key != "" && exists v :: v in Values(cfg, role, kind) && Normal(lower, kind, v) == key
  }

  predicate MatchesUnder(lower: string -> string, cfg: TeamConfig, role: Role, id: Identity, kind: Kind)
  {
    exists key :: key in Keys(lower, id, kind) && Listed(lower, cfg, role, kind, key)
  }

  /** Some mapping of the configuration names the identity. */
  predicate Matches(lower: string -> string, cfg: TeamConfig, role: Role, id: Identity)
  {
    || MatchesUnder(lower, cfg, role, id, Group) || MatchesUnder(lower, cfg, role, id, Subject)
    || MatchesUnder(lower, cfg, role, id, Email) || MatchesUnder(lower, cfg, role, id, Domain)
  }

  function Owners(cfg: TeamConfig): set<string> { {cfg.team} + set o | o in cfg.publishOwners && o != "" }

  datatype Grant = Grant(cfg: TeamConfig, role: Role)

  const ROLES := {Publisher, TeamAdmin, Admin}

  /** Everything the configurations grant to an identity. */
  function Grants(lower: string -> string, configs: seq<TeamConfig>, id: Identity): set<Grant>
  {
    set cfg, role | cfg in configs && role in ROLES && Matches(lower, cfg, role, id) :: Grant(cfg, role)
  }

  /* ---------- merging ---------- */

  function PrincipalOf(g: Grant): Principal
  {
    match g.role
    case Publisher => Principal(g.cfg.team, true, true, false, false, Owners(g.cfg), {})
    case TeamAdmin => Principal(g.cfg.team, true, true, true, false, Owners(g.cfg), {g.cfg.team})
    case Admin => Principal(g.cfg.team, true, false, false, true, {}, {})
  }

  function Merge(l: Principal, r: Principal): Principal
  {
    Principal(if r.canAdmin && !l.canAdmin then r.team else l.team,
              l.canRead || r.canRead, l.canPublish || r.canPublish, l.canManageTeam || r.canManageTeam,
              l.canAdmin || r.canAdmin, l.publishOwners + r.publishOwners, l.managedTeams + r.managedTeams)
  }

  /** A principal holds exactly the permissions of a set of grants. */
  ghost predicate Sums(p: Principal, grants: set<Grant>)
  {
    && grants != {} && p.canRead
    && (p.canPublish <==> exists g :: g in grants && g.role != Admin)
    && (p.canManageTeam <==> exists g :: g in grants && g.role == TeamAdmin)
    && (p.canAdmin <==> exists g :: g in grants && g.role == Admin)
    && (forall o :: o in p.publishOwners <==> exists g :: g in grants && g.role != Admin && o in Owners(g.cfg))
    && (forall t :: t in p.managedTeams <==> exists g :: g in grants && g.role == TeamAdmin && g.cfg.team == t)
  }

  /** And the team of one of them. */
  ghost predicate Merged(p: Principal, grants: set<Grant>)
  {
    Sums(p, grants) && exists g :: g in grants && g.cfg.team == p.team
  }

  lemma OneMerged(g: Grant)
    ensures Merged(PrincipalOf(g), {g})
  {
    var p := PrincipalOf(g);
    assert g in {g};
  }

  lemma MergeMerged(l: Principal, r: Principal, a: set<Grant>, b: set<Grant>)
    requires Merged(l, a) && Merged(r, b)
    ensures Merged(Merge(l, r), a + b)
  {
    MergeSums(l, r, a, b);
    var g, h :| g in a && g.cfg.team == l.team && h in b && h.cfg.team == r.team;
    assert g in a + b && h in a + b;
  }

  lemma MergeSums(l: Principal, r: Principal, a: set<Grant>, b: set<Grant>)
    requires Sums(l, a) && Sums(r, b)
    ensures Sums(Merge(l, r), a + b)
  {
    var m := Merge(l, r);
    forall o ensures o in m.publishOwners <==> exists g :: g in a + b && g.role != Admin && o in Owners(g.cfg) {
      if o in l.publishOwners {
        var g :| g in a && g.role != Admin && o in Owners(g.cfg);
        assert g in a + b;
      } else if o in r.publishOwners {
        var g :| g in b && g.role != Admin && o in Owners(g.cfg);
        assert g in a + b;
      }
    }
    forall t ensures t in m.managedTeams <==> exists g :: g in a + b && g.role == TeamAdmin && g.cfg.team == t {
      if t in l.managedTeams {
        var g :| g in a && g.role == TeamAdmin && g.cfg.team == t;
        assert g in a + b;
      } else if t in r.managedTeams {
        var g :| g in b && g.role == TeamAdmin && g.cfg.team == t;
        assert g in a + b;
      }
    }
    assert forall g :: g in a || g in b <==> g in a + b;
  }

  /* ---------- directories ---------- */

  datatype Registration = Registration(key: string, grant: Grant)

  function Under(regs: set<Registration>, key: string): set<Grant> { set r | r in regs && r.key == key :: r.grant }

  ghost predicate LedTo(directory: map<string, Principal>, regs: set<Registration>, key: string)
  {
    if key in directory then Merged(directory[key], Under(regs, key)) else Under(regs, key) == {}
  }

  /** Each key leads to the merge of everything registered under it. */
  ghost predicate Indexes(directory: map<string, Principal>, regs: set<Registration>)
  {
    forall key :: LedTo(directory, regs, key)
  }

  function Registered(directory: map<string, Principal>, key: string, p: Principal): map<string, Principal>
  {
    directory[key := if key in directory then Merge(directory[key], p) else p]
  }

  lemma RegisteredIndexes(directory: map<string, Principal>, regs: set<Registration>, key: string, g: Grant)
    requires Indexes(directory, regs)
    ensures Indexes(Registered(directory, key, PrincipalOf(g)), regs + {Registration(key, g)})
  {
    var directory', regs' := Registered(directory, key, PrincipalOf(g)), regs + {Registration(key, g)};
    UnderRegistered(regs, key, g);
    forall k ensures LedTo(directory', regs', k) {
      assert LedTo(directory, regs, k);
      if k == key { RegisteredLeads(directory, regs, key, g); }
    }
  }

  lemma RegisteredLeads(directory: map<string, Principal>, regs: set<Registration>, key: string, g: Grant)
    requires LedTo(directory, regs, key)
    ensures LedTo(Registered(directory, key, PrincipalOf(g)), regs + {Registration(key, g)}, key)
  {
    UnderRegistered(regs, key, g);
    OneMerged(g);
    if key in directory {
      MergeMerged(directory[key], PrincipalOf(g), Under(regs, key), {g});
    } else {
      assert Under(regs, key) + {g} == {g};
    }
  }

  lemma UnderRegistered(regs: set<Registration>, key: string, g: Grant)
    ensures Under(regs + {Registration(key, g)}, key) == Under(regs, key) + {g}
    ensures forall k :: k != key ==> Under(regs + {Registration(key, g)}, k) == Under(regs, k)
  {
  }

  /** registerOIDCValues. */
  function NewRegistrations(lower: string -> string, values: seq<string>, kind: Kind, g: Grant): set<Registration>
  {
    set v | v in values && Normal(lower, kind, v) != "" :: Registration(Normal(lower, kind, v), g)
  }

  /** All registrations of one configuration under one kind of key. */
  function OfConfig(lower: string -> string, cfg: TeamConfig, kind: Kind): set<Registration>
  {
    NewRegistrations(lower, Values(cfg, Publisher, kind), kind, Grant(cfg, Publisher))
    + NewRegistrations(lower, Values(cfg, TeamAdmin, kind), kind, Grant(cfg, TeamAdmin))
    + NewRegistrations(lower, Values(cfg, Admin, kind), kind, Grant(cfg, Admin))
  }

  function OfConfigs(lower: string -> string, configs: seq<TeamConfig>, kind: Kind): set<Registration>
  {
    if configs == [] then {}
    else OfConfigs(lower, configs[..|configs| - 1], kind) + OfConfig(lower, configs[|configs| - 1], kind)
  }

  lemma {:induction false} RegistrationsAreListed(lower: string -> string, configs: seq<TeamConfig>, kind: Kind, r: Registration)
    ensures r in OfConfigs(lower, configs, kind)
            <==> r.grant.cfg in configs && Listed(lower, r.grant.cfg, r.grant.role, kind, r.key)
  {
    if configs != [] {
      var front, last := configs[..|configs| - 1], configs[|configs| - 1];
      RegistrationsAreListed(lower, front, kind, r);
      OneConfigListed(lower, last, kind, r);
      assert r.grant.cfg in configs <==> r.grant.cfg in front || r.grant.cfg == last;
    }
  }

  lemma OneConfigListed(lower: string -> string, cfg: TeamConfig, kind: Kind, r: Registration)
    ensures r in OfConfig(lower, cfg, kind) <==> r.grant.cfg == cfg && Listed(lower, cfg, r.grant.role, kind, r.key)
  {
    NewListed(lower, cfg, Publisher, kind, r);
    NewListed(lower, cfg, TeamAdmin, kind, r);
    NewListed(lower, cfg, Admin, kind, r);
  }

  lemma NewListed(lower: string -> string, cfg: TeamConfig, role: Role, kind: Kind, r: Registration)
    ensures r in NewRegistrations(lower, Values(cfg, role, kind), kind, Grant(cfg, role))
            <==> r.grant == Grant(cfg, role) && Listed(lower, cfg, role, kind, r.key)
  {
  }

  /* ---------- which configurations are accepted ---------- */

  predicate ValidTeam(cfg: TeamConfig)
  {
    cfg.team != ""
    && (cfg.team == GLOBAL_ADMIN_TEAM || (cfg.team == RUNTIME_ADMIN_TEAM && cfg.adminTokens != []) || ValidOwner(cfg.team))
  }

  predicate ValidRole(cfg: TeamConfig)
  {
    if cfg.team == GLOBAL_ADMIN_TEAM then
      && cfg.readTokens == cfg.publishTokens == [] && cfg.readRecords == cfg.publishRecords == []
      && cfg.publishOwners == cfg.emails == cfg.subjects == cfg.domains == cfg.groups == []
      && cfg.teamAdminEmails == cfg.teamAdminGroups == []
    else cfg.adminEmails == cfg.adminSubjects == cfg.adminGroups == []
  }

  /** One configuration on its own, its team name already trimmed. */
  predicate ValidConfig(cfg: TeamConfig)
  {
    && ValidTeam(cfg)
    && ValidRole(cfg)
    && forall o :: o in cfg.publishOwners && o != "" ==> ValidOwner(o)
  }

  function Trimmed(configs: seq<TeamConfig>): seq<TeamConfig>
  {
    seq(|configs|, i requires 0 <= i < |configs| => configs[i].(team := TrimSpace(configs[i].team)))
  }

  predicate Accepted(lower: string -> string, configs: seq<TeamConfig>)
  {
    && (forall i :: 0 <= i < |configs| ==> ValidConfig(configs[i]))
    && (forall i, j :: 0 <= i < j < |configs| ==> lower(configs[i].team) != lower(configs[j].team))
  }

  /* ---------- access tokens; `digest` stands for the token hasher ---------- */

  datatype TokenRole = ReadAccess | PublishAccess | AdminAccess

  datatype TokenGrant = TokenGrant(cfg: TeamConfig, role: TokenRole)

  function TokenPrincipal(g: TokenGrant): Principal
  {
    Principal(g.cfg.team, true, g.role == PublishAccess, false, g.role == AdminAccess, Owners(g.cfg), {})
  }

  function Plains(g: TokenGrant, tokens: seq<string>): seq<Offer<TokenGrant>>
  {
    seq(|tokens|, i requires 0 <= i < |tokens| => Offer(g, Plain(tokens[i])))
  }

  function Storeds(g: TokenGrant, records: seq<TokenRecord>): seq<Offer<TokenGrant>>
  {
    seq(|records|, i requires 0 <= i < |records| => Offer(g, Stored(records[i])))
  }

  /** What a configuration registers, in that order. */
  function OffersOf(cfg: TeamConfig): seq<Offer<TokenGrant>>
  {
    Plains(TokenGrant(cfg, ReadAccess), cfg.readTokens) + Storeds(TokenGrant(cfg, ReadAccess), cfg.readRecords)
    + Plains(TokenGrant(cfg, PublishAccess), cfg.publishTokens) + Storeds(TokenGrant(cfg, PublishAccess), cfg.publishRecords)
    + Plains(TokenGrant(cfg, AdminAccess), cfg.adminTokens)
  }

  function AllOffers(configs: seq<TeamConfig>): seq<Offer<TokenGrant>>
  {
    if configs == [] then [] else AllOffers(configs[..|configs| - 1]) + OffersOf(configs[|configs| - 1])
  }

  /** The configuration has the token or record in the list of the role. */
  predicate Offered(o: Offer<TokenGrant>)
  {
    var cfg := o.grant.cfg;
    match (o.source, o.grant.role)
    case (Plain(token), ReadAccess) => token in cfg.readTokens
    case (Plain(token), PublishAccess) => token in cfg.publishTokens
    case (Plain(token), AdminAccess) => token in cfg.adminTokens
    case (Stored(record), ReadAccess) => record in cfg.readRecords
    case (Stored(record), PublishAccess) => record in cfg.publishRecords
    case (Stored(_), AdminAccess) => false
  }

  lemma OneListOffers(g: TokenGrant, tokens: seq<string>, records: seq<TokenRecord>, o: Offer<TokenGrant>)
    ensures o in Plains(g, tokens) <==> o.grant == g && o.source.Plain? && o.source.text in tokens
    ensures o in Storeds(g, records) <==> o.grant == g && o.source.Stored? && o.source.record in records
  {
    if o.grant == g && o.source.Plain? && o.source.text in tokens {
      var i :| 0 <= i < |tokens| && tokens[i] == o.source.text;
      assert Plains(g, tokens)[i] == o;
    }
    if o.grant == g && o.source.Stored? && o.source.record in records {
      var i :| 0 <= i < |records| && records[i] == o.source.record;
      assert Storeds(g, records)[i] == o;
    }
  }

  lemma OneConfigOffers(cfg: TeamConfig, o: Offer<TokenGrant>)
    ensures o in OffersOf(cfg) <==> o.grant.cfg == cfg && Offered(o)
  {
    OneListOffers(TokenGrant(cfg, ReadAccess), cfg.readTokens, cfg.readRecords, o);
    OneListOffers(TokenGrant(cfg, PublishAccess), cfg.publishTokens, cfg.publishRecords, o);
    OneListOffers(TokenGrant(cfg, AdminAccess), cfg.adminTokens, [], o);
  }

  /** What is registered agrees with searching the configurations. */
  lemma {:induction false} OffersAreListed(configs: seq<TeamConfig>, o: Offer<TokenGrant>)
    ensures o in AllOffers(configs) <==> o.grant.cfg in configs && Offered(o)
  {
    if configs != [] {
      var front, last := configs[..|configs| - 1], configs[|configs| - 1];
      OffersAreListed(front, o);
      OneConfigOffers(last, o);
      assert o.grant.cfg in configs <==> o.grant.cfg in front || o.grant.cfg == last;
    }
  }

  /** Of accepted configurations, at most one offers a key, and for one role. */
  lemma OneGrantPerToken(digest: string -> string, now: int, configs: seq<TeamConfig>, o: Offer<TokenGrant>, o': Offer<TokenGrant>)
    requires NoReuse(TokenKeys(digest, now), AllOffers(configs))
    requires o.grant.cfg in configs && Offered(o) && o'.grant.cfg in configs && Offered(o')
    requires KeyOf(digest, now, o.source).Some? && KeyOf(digest, now, o.source) == KeyOf(digest, now, o'.source)
    ensures o == o'
  {
    OffersAreListed(configs, o);
    OffersAreListed(configs, o');
  }

  /* ---------- tokens by direct search ---------- */

  /** The list has the token under this key, plain and trimmed or as a record that is neither revoked nor expired. */
  predicate Carries(digest: string -> string, now: int, tokens: seq<string>, records: seq<TokenRecord>, key: string)
  {
    || (exists t :: t in tokens && TrimSpace(t) != "" && digest(TrimSpace(t)) == key)
    || (key != "" && exists r :: r in records && r.digest == key && !r.revoked && (r.expiresAt == None || now < r.expiresAt.value))
  }

  predicate MayRead(digest: string -> string, now: int, cfg: TeamConfig, key: string)
  {
    Carries(digest, now, cfg.readTokens, cfg.readRecords, key)
  }

  predicate MayPublish(digest: string -> string, now: int, cfg: TeamConfig, key: string)
  {
    Carries(digest, now, cfg.publishTokens, cfg.publishRecords, key)
  }

  predicate MayAdminister(digest: string -> string, now: int, cfg: TeamConfig, key: string)
  {
    Carries(digest, now, cfg.adminTokens, [], key)
  }

  predicate Bears(digest: string -> string, now: int, g: TokenGrant, key: string)
  {
    match g.role
    case ReadAccess => MayRead(digest, now, g.cfg, key)
    case PublishAccess => MayPublish(digest, now, g.cfg, key)
    case AdminAccess => MayAdminister(digest, now, g.cfg, key)
  }

  predicate OffersUnder(digest: string -> string, now: int, g: TokenGrant, key: string, source: Source)
  {
    Offered(Offer(g, source)) && KeyOf(digest, now, source) == Some(key)
  }

  lemma BearsExactly(digest: string -> string, now: int, g: TokenGrant, key: string)
    ensures Bears(digest, now, g, key) <==> exists source :: OffersUnder(digest, now, g, key, source)
  {
    forall t: string | OffersUnder(digest, now, g, key, Plain(t)) ensures Bears(digest, now, g, key) {}
    forall t: string | Offered(Offer(g, Plain(t))) && TrimSpace(t) != "" && digest(TrimSpace(t)) == key
      ensures OffersUnder(digest, now, g, key, Plain(t))
    {
    }
    forall r: TokenRecord | Offered(Offer(g, Stored(r))) && r.Active(now) && r.digest == key
      ensures OffersUnder(digest, now, g, key, Stored(r))
    {
    }
  }

  /** Accepted configurations have a key in one list at most. */
  lemma OneBearer(digest: string -> string, now: int, configs: seq<TeamConfig>, g: TokenGrant, g': TokenGrant, key: string)
    requires NoReuse(TokenKeys(digest, now), AllOffers(configs)) && g.cfg in configs && g'.cfg in configs
    requires Bears(digest, now, g, key) && Bears(digest, now, g', key)
    ensures g == g'
  {
    BearsExactly(digest, now, g, key);
    BearsExactly(digest, now, g', key);
    var source :| OffersUnder(digest, now, g, key, source);
    var source' :| OffersUnder(digest, now, g', key, source');
    OneGrantPerToken(digest, now, configs, Offer(g, source), Offer(g', source'));
  }

  /** Some configuration has the key in some list. */
  predicate Known(digest: string -> string, now: int, configs: seq<TeamConfig>, key: string)
  {
    exists cfg :: cfg in configs
                  && (MayRead(digest, now, cfg, key) || MayPublish(digest, now, cfg, key) || MayAdminister(digest, now, cfg, key))
  }

  /** What a key permits: reading; publishing to the owners of the configuration that lets it publish; deleting anything as an admin. */
  ghost predicate Permits(digest: string -> string, now: int, configs: seq<TeamConfig>, key: string, p: Principal)
  {
    && p.canRead && !p.canManageTeam
    && (p.canPublish <==> exists cfg :: cfg in configs && MayPublish(digest, now, cfg, key))
    && (p.canAdmin <==> exists cfg :: cfg in configs && MayAdminister(digest, now, cfg, key))
    && (forall owner :: p.CanPublishOwner(owner) <==>
          exists cfg :: cfg in configs && MayPublish(digest, now, cfg, key) && HasOwner(cfg, owner))
    && (forall owner :: p.CanDeleteOwner(owner) <==> exists cfg :: cfg in configs && MayAdminister(digest, now, cfg, key))
    && (exists g: TokenGrant :: g.cfg in configs && Bears(digest, now, g, key) && p.team == g.cfg.team)
  }

  /** A configuration's owners are its team and the non-empty ones it lists. */
  predicate HasOwner(cfg: TeamConfig, owner: string) { owner == cfg.team || (owner != "" && owner in cfg.publishOwners) }

  lemma GrantPermits(digest: string -> string, now: int, configs: seq<TeamConfig>, key: string, g: TokenGrant)
    requires NoReuse(TokenKeys(digest, now), AllOffers(configs)) && g.cfg in configs && Bears(digest, now, g, key)
    ensures Permits(digest, now, configs, key, TokenPrincipal(g))
  {
    forall cfg, role | cfg in configs && Bears(digest, now, TokenGrant(cfg, role), key) ensures TokenGrant(cfg, role) == g {
      OneBearer(digest, now, configs, TokenGrant(cfg, role), g, key);
    }
    forall cfg | cfg in configs
      ensures MayPublish(digest, now, cfg, key) <==> TokenGrant(cfg, PublishAccess) == g
      ensures MayAdminister(digest, now, cfg, key) <==> TokenGrant(cfg, AdminAccess) == g
    {
      assert Bears(digest, now, TokenGrant(cfg, PublishAccess), key) <==> MayPublish(digest, now, cfg, key);
      assert Bears(digest, now, TokenGrant(cfg, AdminAccess), key) <==> MayAdminister(digest, now, cfg, key);
    }
  }

  /** The directory of tokens has exactly the keys that some configuration has in a list. */
  lemma DirectoryKnows(digest: string -> string, now: int, configs: seq<TeamConfig>, directory: map<string, Offer<TokenGrant>>, key: string)
    requires NoReuse(TokenKeys(digest, now), AllOffers(configs)) && Lists(TokenKeys(digest, now), directory, AllOffers(configs))
    ensures key in directory <==> Known(digest, now, configs, key)
    ensures key in directory ==> Permits(digest, now, configs, key, TokenPrincipal(directory[key].grant))
  {
    if key in directory {
      var o := directory[key];
      OffersAreListed(configs, o);
      assert OffersUnder(digest, now, o.grant, key, o.source);
      BearsExactly(digest, now, o.grant, key);
      GrantPermits(digest, now, configs, key, o.grant);
    }
    forall g: TokenGrant | g.cfg in configs && Bears(digest, now, g, key) ensures key in directory {
      BearsExactly(digest, now, g, key);
      var source :| OffersUnder(digest, now, g, key, source);
      OffersAreListed(configs, Offer(g, source));
    }
    forall cfg | cfg in configs
      ensures MayRead(digest, now, cfg, key) <==> Bears(digest, now, TokenGrant(cfg, ReadAccess), key)
      ensures MayPublish(digest, now, cfg, key) <==> Bears(digest, now, TokenGrant(cfg, PublishAccess), key)
      ensures MayAdminister(digest, now, cfg, key) <==> Bears(digest, now, TokenGrant(cfg, AdminAccess), key)
    {
    }
  }

  lemma OffersSoFar(configs: seq<TeamConfig>, i: nat)
    requires i < |configs|
    ensures AllOffers(configs[..i + 1]) == AllOffers(configs[..i]) + OffersOf(configs[i])
  {
    assert configs[..i + 1][..i] == configs[..i];
  }

  /** A token reused among the first configurations is reused among all. */
  lemma {:induction false} ReusedSoFar(keys: Source -> Option<string>, configs: seq<TeamConfig>, i: nat)
    requires i <= |configs| && !NoReuse(keys, AllOffers(configs[..i]))
    ensures !NoReuse(keys, AllOffers(configs))
    decreases |configs| - i
  {
    if i < |configs| {
      OffersSoFar(configs, i);
      ReuseStays(keys, AllOffers(configs[..i]), OffersOf(configs[i]));
      ReusedSoFar(keys, configs, i + 1);
    } else {
      assert configs[..i] == configs;
    }
  }

  /* ---------- the authorizer ---------- */

  class Authorizer {
    var enabled: bool
    var tokens: map<string, Offer<TokenGrant>>
    var oidcEmails: map<string, Principal>
    var oidcSubjects: map<string, Principal>
    var oidcDomains: map<string, Principal>
    var oidcGroups: map<string, Principal>

    /** The directories index these configurations. */
    ghost predicate Compiled(lower: string -> string, configs: seq<TeamConfig>)
      reads this
    {
      && Indexes(oidcEmails, OfConfigs(lower, configs, Email)) && Indexes(oidcSubjects, OfConfigs(lower, configs, Subject))
      && Indexes(oidcDomains, OfConfigs(lower, configs, Domain)) && Indexes(oidcGroups, OfConfigs(lower, configs, Group))
    }

    predicate Blank()
      reads this
    {
      oidcEmails == map[] && oidcSubjects == map[] && oidcDomains == map[] && oidcGroups == map[]
    }

    ghost predicate Valid(lower: string -> string, configs: seq<TeamConfig>)
      reads this
    {
      Compiled(lower, configs) && (enabled || (Blank() && tokens == map[]))
    }

    /** The tokens are those of these configurations, each its own. */
    ghost predicate HasTokens(digest: string -> string, now: int, configs: seq<TeamConfig>)
      reads this
    {
      NoReuse(TokenKeys(digest, now), AllOffers(configs)) && Lists(TokenKeys(digest, now), tokens, AllOffers(configs))
    }

    constructor ()
      ensures Blank() && tokens == map[]
    {
      enabled, tokens, oidcEmails, oidcSubjects, oidcDomains, oidcGroups := false, map[], map[], map[], map[], map[];
    }

    method Enable()
      modifies this`enabled
      ensures enabled || (Blank() && tokens == map[])
    {
      enabled := |tokens| > 0 || |oidcEmails| > 0 || |oidcSubjects| > 0 || |oidcDomains| > 0 || |oidcGroups| > 0;
    }

    /** Registers what a configuration offers and maps, unless it reuses a token. */
    method AddConfig(lower: string -> string, digest: string -> string, now: int, cfg: TeamConfig, ghost configs: seq<TeamConfig>)
      returns (ok: bool)
      requires Compiled(lower, configs) && HasTokens(digest, now, configs)
      modifies this
      ensures ok <==> NoReuse(TokenKeys(digest, now), AllOffers(configs + [cfg]))
      ensures ok ==> Compiled(lower, configs + [cfg]) && HasTokens(digest, now, configs + [cfg])
    {
      assert (configs + [cfg])[..|configs|] == configs;
      var directory;
      ok, directory := Register(TokenKeys(digest, now), tokens, OffersOf(cfg), AllOffers(configs));
      if ok {
        tokens := directory;
        RegisterConfig(lower, cfg, configs);
      }
    }

    /** A token is looked up as it is presented: only its trimmed form was registered. */
    method AuthenticateToken(digest: string -> string, now: int, token: string, ghost configs: seq<TeamConfig>)
      returns (found: Option<Principal>)
      requires HasTokens(digest, now, configs) && (enabled || tokens == map[])
      ensures found.Some? <==> TrimSpace(token) != "" && Known(digest, now, configs, digest(token))
      ensures found.Some? ==> Permits(digest, now, configs, digest(token), found.value)
    {
      DirectoryKnows(digest, now, configs, tokens, digest(token));
      if !enabled || TrimSpace(token) == "" { return None; }
      var key := digest(token);
      if key !in tokens { return None; }
      return Some(TokenPrincipal(tokens[key].grant));
    }

    /** Registers everything a configuration maps. */
    method RegisterConfig(lower: string -> string, cfg: TeamConfig, ghost configs: seq<TeamConfig>)
      requires Compiled(lower, configs)
      modifies this
      ensures Compiled(lower, configs + [cfg]) && enabled == old(enabled) && tokens == old(tokens)
    {
      var emails := RegisterKind(lower, oidcEmails, cfg, Email, configs);
      var subjects := RegisterKind(lower, oidcSubjects, cfg, Subject, configs);
      var domains := RegisterKind(lower, oidcDomains, cfg, Domain, configs);
      var groups := RegisterKind(lower, oidcGroups, cfg, Group, configs);
      oidcEmails, oidcSubjects, oidcDomains, oidcGroups := emails, subjects, domains, groups;
    }

    /** Looks the identity up everywhere and merges what it finds. */
    method AuthenticateOIDC(lower: string -> string, id: Identity, ghost configs: seq<TeamConfig>)
      returns (found: Option<Principal>)
      requires Valid(lower, configs)
      ensures found.Some? <==> Grants(lower, configs, id) != {}
      ensures found.Some? ==>
                Sums(found.value, Grants(lower, configs, id)) && TeamRight(found.value) && OwnTeam(lower, configs, id, found.value)
    {
      if !enabled {
        NothingGranted(lower, configs, id, oidcEmails, oidcSubjects, oidcDomains, oidcGroups);
        return None;
      }
      var first, seen := GroupCandidates(lower, id, configs);
      first, seen := SubjectCandidate(lower, id, first, seen, configs);
      first, seen := EmailCandidates(lower, id, first, seen, configs);
      GrantsAreFound(lower, configs, id);
      if first.Some? {
        PublishersTeam(lower, configs, id, first.value);
        var team := EffectiveTeam(first.value);
        return Some(first.value.(team := team));
      }
      return None;
    }

    method GroupCandidates(lower: string -> string, id: Identity, ghost configs: seq<TeamConfig>)
      returns (first: Option<Principal>, ghost seen: set<Grant>)
      requires Indexes(oidcGroups, OfConfigs(lower, configs, Group))
      ensures Gathered(first, seen) && seen == Found(lower, configs, Group, Keys(lower, id, Group))
    {
      first, seen := None, {};
      FoundNowhere(lower, configs, Group);
      for i := 0 to |id.groups|
        invariant Gathered(first, seen) && seen == Found(lower, configs, Group, GroupKeys(lower, id.groups[..i]))
      {
        var key := Normal(lower, Group, id.groups[i]);
        MoreGroups(lower, configs, id.groups, i);
        first, seen := AddCandidate(lower, oidcGroups, key, first, seen, configs, Group);
      }
      assert id.groups[..|id.groups|] == id.groups;
    }

    method SubjectCandidate(lower: string -> string, id: Identity, first: Option<Principal>, ghost seen: set<Grant>,
                            ghost configs: seq<TeamConfig>)
      returns (next: Option<Principal>, ghost now: set<Grant>)
      requires Compiled(lower, configs) && Gathered(first, seen)
      ensures Gathered(next, now) && now == seen + Found(lower, configs, Subject, Keys(lower, id, Subject))
    {
      next, now := first, seen;
      var subject := TrimSpace(id.subject);
      BlankFindsNothing(lower, configs, Subject);
      if subject != "" {
        next, now := AddCandidate(lower, oidcSubjects, subject, first, seen, configs, Subject);
      }
    }

    method EmailCandidates(lower: string -> string, id: Identity, first: Option<Principal>, ghost seen: set<Grant>,
                           ghost configs: seq<TeamConfig>)
      returns (next: Option<Principal>, ghost now: set<Grant>)
      requires Compiled(lower, configs) && Gathered(first, seen)
      ensures Gathered(next, now)
      ensures now == seen + Found(lower, configs, Email, Keys(lower, id, Email)) + Found(lower, configs, Domain, Keys(lower, id, Domain))
    {
      next, now := first, seen;
      var email := Normal(lower, Email, id.email);
      BlankFindsNothing(lower, configs, Email);
      BlankFindsNothing(lower, configs, Domain);
      FoundNowhere(lower, configs, Domain);
      if email != "" {
        next, now := AddCandidate(lower, oidcEmails, email, next, now, configs, Email);
        var domain := EmailDomain(lower, email);
        if domain != "" {
          next, now := AddCandidate(lower, oidcDomains, domain, next, now, configs, Domain);
        }
      }
    }

    method AddCandidate(lower: string -> string, directory: map<string, Principal>, key: string, first: Option<Principal>,
                        ghost seen: set<Grant>, ghost configs: seq<TeamConfig>, ghost kind: Kind)
      returns (next: Option<Principal>, ghost now: set<Grant>)
      requires Gathered(first, seen) && Indexes(directory, OfConfigs(lower, configs, kind))
      ensures Gathered(next, now) && now == seen + Found(lower, configs, kind, {key})
    {
      ghost var here := Under(OfConfigs(lower, configs, kind), key);
      FoundHere(lower, configs, kind, key);
      assert LedTo(directory, OfConfigs(lower, configs, kind), key);
      now := seen + here;
      next := first;
      if key in directory {
        match first
        case None => next := Some(directory[key]);
        case Some(p) =>
          MergeMerged(p, directory[key], seen, here);
          next := Some(Merge(p, directory[key]));
      }
    }
  }

  /** registerOIDCValues for the three roles in turn. */
  method RegisterKind(lower: string -> string, directory: map<string, Principal>, cfg: TeamConfig, kind: Kind,
                      ghost configs: seq<TeamConfig>)
    returns (next: map<string, Principal>)
    requires Indexes(directory, OfConfigs(lower, configs, kind))
    ensures Indexes(next, OfConfigs(lower, configs + [cfg], kind))
  {
    ghost var regs := OfConfigs(lower, configs, kind);
    ghost var publishers := NewRegistrations(lower, Values(cfg, Publisher, kind), kind, Grant(cfg, Publisher));
    ghost var teamAdmins := NewRegistrations(lower, Values(cfg, TeamAdmin, kind), kind, Grant(cfg, TeamAdmin));
    ghost var admins := NewRegistrations(lower, Values(cfg, Admin, kind), kind, Grant(cfg, Admin));
    next := RegisterValues(lower, directory, Values(cfg, Publisher, kind), kind, Grant(cfg, Publisher), regs);
    next := RegisterValues(lower, next, Values(cfg, TeamAdmin, kind), kind, Grant(cfg, TeamAdmin), regs + publishers);
    next := RegisterValues(lower, next, Values(cfg, Admin, kind), kind, Grant(cfg, Admin), regs + publishers + teamAdmins);
    assert (configs + [cfg])[..|configs|] == configs;
    assert regs + publishers + teamAdmins + admins == OfConfigs(lower, configs + [cfg], kind);
  }

  method RegisterValues(lower: string -> string, directory: map<string, Principal>, values: seq<string>, kind: Kind, g: Grant,
                        ghost regs: set<Registration>)
    returns (next: map<string, Principal>)
    requires Indexes(directory, regs)
    ensures Indexes(next, regs + NewRegistrations(lower, values, kind, g))
  {
    next := directory;
    ghost var known := regs;
    for i := 0 to |values|
      invariant Indexes(next, known) && known == regs + NewRegistrations(lower, values[..i], kind, g)
    {
      var key := Normal(lower, kind, values[i]);
      MoreValues(lower, values, kind, g, i);
      if key != "" {
        RegisteredIndexes(next, known, key, g);
        next := Registered(next, key, PrincipalOf(g));
        known := known + {Registration(key, g)};
      }
    }
    assert values[..|values|] == values;
  }

  lemma MoreValues(lower: string -> string, values: seq<string>, kind: Kind, g: Grant, i: nat)
    requires i < |values|
    ensures NewRegistrations(lower, values[..i + 1], kind, g)
            == NewRegistrations(lower, values[..i], kind, g)
               + if Normal(lower, kind, values[i]) == "" then {} else {Registration(Normal(lower, kind, values[i]), g)}
  {
    assert values[..i + 1] == values[..i] + [values[i]];
  }

  function Names(lower: string -> string, configs: seq<TeamConfig>): set<string>
  {
    set cfg | cfg in configs :: lower(cfg.team)
  }

  lemma AcceptedMore(lower: string -> string, configs: seq<TeamConfig>, i: nat)
    requires i < |configs| && Accepted(lower, configs[..i])
    ensures Accepted(lower, configs[..i + 1]) <==> ValidConfig(configs[i]) && lower(configs[i].team) !in Names(lower, configs[..i])
    ensures Names(lower, configs[..i + 1]) == Names(lower, configs[..i]) + {lower(configs[i].team)}
    ensures Accepted(lower, configs) ==> Accepted(lower, configs[..i + 1])
  {
    var front, more := configs[..i], configs[..i + 1];
    assert more == front + [configs[i]];
    assert forall k :: 0 <= k < i ==> front[k] == more[k];
  }

  /** newAuthorizer. */
  method NewAuthorizer(lower: string -> string, digest: string -> string, now: int, configs: seq<TeamConfig>)
    returns (ok: bool, authorizer: Authorizer)
    ensures fresh(authorizer)
    ensures ok <==> Accepted(lower, Trimmed(configs)) && NoReuse(TokenKeys(digest, now), AllOffers(Trimmed(configs)))
    ensures ok ==> authorizer.Valid(lower, Trimmed(configs)) && authorizer.HasTokens(digest, now, Trimmed(configs))
  {
    authorizer := new Authorizer();
    ok := CompileConfigs(lower, digest, now, Trimmed(configs), authorizer);
    authorizer.Enable();
  }

  method CompileConfigs(lower: string -> string, digest: string -> string, now: int, configs: seq<TeamConfig>, authorizer: Authorizer)
    returns (ok: bool)
    requires authorizer.Blank() && authorizer.tokens == map[]
    modifies authorizer
    ensures ok <==> Accepted(lower, configs) && NoReuse(TokenKeys(digest, now), AllOffers(configs))
    ensures ok ==> authorizer.Compiled(lower, configs) && authorizer.HasTokens(digest, now, configs)
  {
    var teamNames: set<string> := {};
    NothingToIndex(lower, authorizer);
    for i := 0 to |configs|
      invariant authorizer.Compiled(lower, configs[..i])
      invariant authorizer.HasTokens(digest, now, configs[..i])
      invariant Accepted(lower, configs[..i])
      invariant teamNames == Names(lower, configs[..i])
    {
      AcceptedMore(lower, configs, i);
      var valid := CheckConfig(configs[i]);
      if lower(configs[i].team) in teamNames || !valid { return false; }
      teamNames := teamNames + {lower(configs[i].team)};
      assert configs[..i] + [configs[i]] == configs[..i + 1];
      var unused := authorizer.AddConfig(lower, digest, now, configs[i], configs[..i]);
      if !unused {
        ReusedSoFar(TokenKeys(digest, now), configs, i + 1);
        return false;
      }
    }
    assert configs[..|configs|] == configs;
    return true;
  }

  method CheckConfig(cfg: TeamConfig) returns (valid: bool)
    ensures valid == ValidConfig(cfg)
  {
    if !ValidTeam(cfg) || !ValidRole(cfg) { return false; }
    valid := ValidOwners(cfg.publishOwners);
  }

  method ValidOwners(owners: seq<string>) returns (valid: bool)
    ensures valid == forall o :: o in owners && o != "" ==> ValidOwner(o)
  {
    for i := 0 to |owners|
      invariant forall j :: 0 <= j < i && owners[j] != "" ==> ValidOwner(owners[j])
    {
      if owners[i] != "" && !ValidOwner(owners[i]) { return false; }
    }
    return true;
  }

  lemma NothingToIndex(lower: string -> string, a: Authorizer)
    requires a.Blank()
    ensures a.Compiled(lower, [])
  {
  }

  ghost predicate Gathered(first: Option<Principal>, seen: set<Grant>)
  {
    match first
    case None => seen == {}
    case Some(p) => Merged(p, seen)
  }

  /* ---------- lookups find what the search finds ---------- */

  /** The grants registered under some of these keys. */
  function Found(lower: string -> string, configs: seq<TeamConfig>, kind: Kind, keys: set<string>): set<Grant>
  {
    set r | r in OfConfigs(lower, configs, kind) && r.key in keys :: r.grant
  }

  lemma FoundUnion(lower: string -> string, configs: seq<TeamConfig>, kind: Kind, a: set<string>, b: set<string>)
    ensures Found(lower, configs, kind, a + b) == Found(lower, configs, kind, a) + Found(lower, configs, kind, b)
  {
  }

  lemma MoreGroups(lower: string -> string, configs: seq<TeamConfig>, groups: seq<string>, i: nat)
    requires i < |groups|
    ensures Found(lower, configs, Group, GroupKeys(lower, groups[..i + 1]))
            == Found(lower, configs, Group, GroupKeys(lower, groups[..i]))
               + Found(lower, configs, Group, {Normal(lower, Group, groups[i])})
  {
    assert groups[..i + 1][..i] == groups[..i];
    FoundUnion(lower, configs, Group, GroupKeys(lower, groups[..i]), {Normal(lower, Group, groups[i])});
  }

  lemma FoundHere(lower: string -> string, configs: seq<TeamConfig>, kind: Kind, key: string)
    ensures Found(lower, configs, kind, {key}) == Under(OfConfigs(lower, configs, kind), key)
  {
  }

  lemma BlankFindsNothing(lower: string -> string, configs: seq<TeamConfig>, kind: Kind)
    ensures Found(lower, configs, kind, {""}) == {}
  {
    forall r | r in OfConfigs(lower, configs, kind) ensures r.key != "" { RegistrationsAreListed(lower, configs, kind, r); }
  }

  lemma FoundNowhere(lower: string -> string, configs: seq<TeamConfig>, kind: Kind)
    ensures Found(lower, configs, kind, {}) == {}
  {
  }

  lemma FoundIsListed(lower: string -> string, configs: seq<TeamConfig>, kind: Kind, keys: set<string>, g: Grant)
    ensures g in Found(lower, configs, kind, keys)
            <==> g.cfg in configs && exists key :: key in keys && Listed(lower, g.cfg, g.role, kind, key)
  {
    if g in Found(lower, configs, kind, keys) {
      var r :| r in OfConfigs(lower, configs, kind) && r.key in keys && r.grant == g;
      RegistrationsAreListed(lower, configs, kind, r);
    }
    forall key | key in keys && g.cfg in configs && Listed(lower, g.cfg, g.role, kind, key) ensures g in Found(lower, configs, kind, keys) {
      RegistrationsAreListed(lower, configs, kind, Registration(key, g));
      assert Registration(key, g) in OfConfigs(lower, configs, kind);
    }
  }

  function FoundAnywhere(lower: string -> string, configs: seq<TeamConfig>, id: Identity): set<Grant>
  {
    Found(lower, configs, Group, Keys(lower, id, Group)) + Found(lower, configs, Subject, Keys(lower, id, Subject))
    + Found(lower, configs, Email, Keys(lower, id, Email)) + Found(lower, configs, Domain, Keys(lower, id, Domain))
  }

  /** The direct search is the union of the lookups under the four kinds of key. */
  lemma GrantsAreFound(lower: string -> string, configs: seq<TeamConfig>, id: Identity)
    ensures Grants(lower, configs, id) == FoundAnywhere(lower, configs, id)
  {
    forall g ensures g in Grants(lower, configs, id) <==> g in FoundAnywhere(lower, configs, id) {
      assert g.role == Publisher || g.role == TeamAdmin || g.role == Admin;
      FoundMatches(lower, configs, Group, id, g);
      FoundMatches(lower, configs, Subject, id, g);
      FoundMatches(lower, configs, Email, id, g);
      FoundMatches(lower, configs, Domain, id, g);
    }
  }

  lemma FoundMatches(lower: string -> string, configs: seq<TeamConfig>, kind: Kind, id: Identity, g: Grant)
    ensures g in Found(lower, configs, kind, Keys(lower, id, kind))
            <==> g.cfg in configs && MatchesUnder(lower, g.cfg, g.role, id, kind)
  {
    FoundIsListed(lower, configs, kind, Keys(lower, id, kind), g);
  }

  lemma NothingGranted(lower: string -> string, configs: seq<TeamConfig>, id: Identity, emails: map<string, Principal>,
                       subjects: map<string, Principal>, domains: map<string, Principal>, groups: map<string, Principal>)
    requires emails == map[] && subjects == map[] && domains == map[] && groups == map[]
    requires Indexes(emails, OfConfigs(lower, configs, Email)) && Indexes(subjects, OfConfigs(lower, configs, Subject))
    requires Indexes(domains, OfConfigs(lower, configs, Domain)) && Indexes(groups, OfConfigs(lower, configs, Group))
    ensures Grants(lower, configs, id) == {}
  {
    EmptyFindsNothing(lower, configs, Email, Keys(lower, id, Email));
    EmptyFindsNothing(lower, configs, Subject, Keys(lower, id, Subject));
    EmptyFindsNothing(lower, configs, Domain, Keys(lower, id, Domain));
    EmptyFindsNothing(lower, configs, Group, Keys(lower, id, Group));
    GrantsAreFound(lower, configs, id);
  }

  lemma EmptyFindsNothing(lower: string -> string, configs: seq<TeamConfig>, kind: Kind, keys: set<string>)
    requires Indexes(map[], OfConfigs(lower, configs, kind))
    ensures Found(lower, configs, kind, keys) == {}
  {
    var regs := OfConfigs(lower, configs, kind);
    if regs != {} {
      var r :| r in regs;
      RegisteredIsUnder(regs, r);
      LeadsNowhere(regs, r.key);
      assert false;
    }
  }

  lemma LeadsNowhere(regs: set<Registration>, key: string)
    requires Indexes(map[], regs)
    ensures Under(regs, key) == {}
  {
    assert LedTo(map[], regs, key);
  }

  lemma RegisteredIsUnder(regs: set<Registration>, r: Registration)
    requires r in regs
    ensures Under(regs, r.key) != {}
  {
    assert r.grant in Under(regs, r.key);
  }

  /* ---------- the effective team ---------- */

  /** Among strings, the first in text order. */
  predicate First(values: set<string>, first: string) { first in values && forall v :: v in values ==> Compare(first, v) <= 0 }

  ghost predicate TeamRight(p: Principal)
  {
    if p.canAdmin then p.team == GLOBAL_ADMIN_TEAM
    else p.canManageTeam && "" !in p.managedTeams && p.managedTeams != {} ==> First(p.managedTeams, p.team)
  }

  /** Who only publishes has the team of a configuration that lets it publish. */
  ghost predicate OwnTeam(lower: string -> string, configs: seq<TeamConfig>, id: Identity, p: Principal)
  {
    p.canAdmin || p.canManageTeam || exists cfg :: cfg in configs && cfg.team == p.team && NamedPublisher(lower, cfg, id)
  }

  lemma PublishersTeam(lower: string -> string, configs: seq<TeamConfig>, id: Identity, p: Principal)
    requires Merged(p, Grants(lower, configs, id))
    ensures OwnTeam(lower, configs, id, p)
  {
    var g :| g in Grants(lower, configs, id) && g.cfg.team == p.team;
    GrantIsGranted(lower, configs, id, g);
    GrantedExactly(lower, configs, id, g.cfg);
  }

  method EffectiveTeam(p: Principal) returns (team: string)
    ensures TeamRight(p.(team := team))
    ensures !p.canAdmin && !p.canManageTeam ==> team == p.team
  {
    if p.canAdmin { return GLOBAL_ADMIN_TEAM; }
    if p.canManageTeam {
      team := FirstSortedSetValue(p.managedTeams);
      return;
    }
    return p.team;
  }

  method FirstSortedSetValue(values: set<string>) returns (first: string)
    ensures "" !in values && values != {} ==> First(values, first)
  {
    first := "";
    var rest := values;
    while rest != {}
      invariant rest <= values
      invariant "" !in values ==> if rest == values then first == "" else First(values - rest, first)
      decreases |rest|
    {
      var v :| v in rest;
      if first == "" || Compare(v, first) < 0 {
        FirstOf(values - rest, first, v);
        first := v;
      } else {
        FirstOf(values - rest, first, v);
      }
      assert values - (rest - {v}) == values - rest + {v};
      rest := rest - {v};
    }
    assert values - rest == values;
  }

  lemma FirstOf(values: set<string>, first: string, v: string)
    ensures First({v}, v)
    ensures First(values, first) && Compare(v, first) < 0 ==> First(values + {v}, v)
    ensures First(values, first) && Compare(v, first) >= 0 ==> First(values + {v}, first)
  {
    CompareEqual(v, v);
    CompareFlip(v, first);
    if First(values, first) && Compare(v, first) < 0 {
      forall w | w in values ensures Compare(v, w) <= 0 { CompareTransitive(v, first, w); }
    }
  }

  /* ---------- permissions by direct search ---------- */

  predicate NamedByEmail(lower: string -> string, emails: seq<string>, id: Identity)
  {
    exists e :: e in emails && lower(TrimSpace(e)) == lower(TrimSpace(id.email)) != ""
  }

  predicate NamedBySubject(subjects: seq<string>, id: Identity)
  {
    exists s :: s in subjects && TrimSpace(s) == TrimSpace(id.subject) != ""
  }

  predicate NamedByGroup(lower: string -> string, groups: seq<string>, id: Identity)
  {
    exists g, h :: g in groups && h in id.groups && lower(TrimSpace(g)) == lower(TrimSpace(h)) != ""
  }

  /** The domain is what follows the first `@` of the email; the configured one may start with an `@`. */
  predicate NamedByDomain(lower: string -> string, domains: seq<string>, id: Identity)
  {
    var email := lower(TrimSpace(id.email));
    '@' in email && exists d :: d in domains && WithoutAt(lower(TrimSpace(d))) == WithoutAt(lower(TrimSpace(After(email, '@')))) != ""
  }

  function WithoutAt(domain: string): string { if domain != "" && domain[0] == '@' then domain[1..] else domain }

  predicate NamedPublisher(lower: string -> string, cfg: TeamConfig, id: Identity)
  {
    || NamedByEmail(lower, cfg.emails, id) || NamedBySubject(cfg.subjects, id)
    || NamedByDomain(lower, cfg.domains, id) || NamedByGroup(lower, cfg.groups, id)
  }

  predicate NamedTeamAdmin(lower: string -> string, cfg: TeamConfig, id: Identity)
  {
    NamedByEmail(lower, cfg.teamAdminEmails, id) || NamedByGroup(lower, cfg.teamAdminGroups, id)
  }

  predicate NamedAdmin(lower: string -> string, cfg: TeamConfig, id: Identity)
  {
    NamedByEmail(lower, cfg.adminEmails, id) || NamedBySubject(cfg.adminSubjects, id) || NamedByGroup(lower, cfg.adminGroups, id)
  }

  /** What the configuration lists, and what the identity is looked up under. */
  lemma MatchesMeans(lower: string -> string, cfg: TeamConfig, role: Role, id: Identity)
    ensures MatchesUnder(lower, cfg, role, id, Email) <==> NamedByEmail(lower, Values(cfg, role, Email), id)
    ensures MatchesUnder(lower, cfg, role, id, Subject) <==> NamedBySubject(Values(cfg, role, Subject), id)
    ensures MatchesUnder(lower, cfg, role, id, Group) <==> NamedByGroup(lower, Values(cfg, role, Group), id)
    ensures MatchesUnder(lower, cfg, role, id, Domain) <==> NamedByDomain(lower, Values(cfg, role, Domain), id)
  {
    EmailMeans(lower, cfg, role, id);
    SubjectMeans(lower, cfg, role, id);
    GroupMeans(lower, cfg, role, id);
    DomainMeans(lower, cfg, role, id);
  }

  lemma EmailMeans(lower: string -> string, cfg: TeamConfig, role: Role, id: Identity)
    ensures MatchesUnder(lower, cfg, role, id, Email) <==> NamedByEmail(lower, Values(cfg, role, Email), id)
  {
    var key := lower(TrimSpace(id.email));
    assert key in Keys(lower, id, Email);
    assert Listed(lower, cfg, role, Email, key) <==> NamedByEmail(lower, Values(cfg, role, Email), id);
  }

  lemma SubjectMeans(lower: string -> string, cfg: TeamConfig, role: Role, id: Identity)
    ensures MatchesUnder(lower, cfg, role, id, Subject) <==> NamedBySubject(Values(cfg, role, Subject), id)
  {
    var key := TrimSpace(id.subject);
    assert key in Keys(lower, id, Subject);
    assert Listed(lower, cfg, role, Subject, key) <==> NamedBySubject(Values(cfg, role, Subject), id);
  }

  lemma GroupMeans(lower: string -> string, cfg: TeamConfig, role: Role, id: Identity)
    ensures MatchesUnder(lower, cfg, role, id, Group) <==> NamedByGroup(lower, Values(cfg, role, Group), id)
  {
    forall key ensures key in Keys(lower, id, Group) <==> exists h :: h in id.groups && lower(TrimSpace(h)) == key {
      GroupKeysAre(lower, id.groups, key);
    }
    forall g, h | g in Values(cfg, role, Group) && h in id.groups && lower(TrimSpace(g)) == lower(TrimSpace(h)) != ""
      ensures MatchesUnder(lower, cfg, role, id, Group)
    {
      assert Listed(lower, cfg, role, Group, lower(TrimSpace(h)));
    }
  }

  lemma DomainMeans(lower: string -> string, cfg: TeamConfig, role: Role, id: Identity)
    ensures MatchesUnder(lower, cfg, role, id, Domain) <==> NamedByDomain(lower, Values(cfg, role, Domain), id)
  {
    var email := lower(TrimSpace(id.email));
    if '@' in email {
      var key := WithoutAt(lower(TrimSpace(After(email, '@'))));
      assert key in Keys(lower, id, Domain);
      assert Listed(lower, cfg, role, Domain, key) <==> NamedByDomain(lower, Values(cfg, role, Domain), id);
    }
  }

  lemma RolesMean(lower: string -> string, cfg: TeamConfig, id: Identity)
    ensures Matches(lower, cfg, Publisher, id) <==> NamedPublisher(lower, cfg, id)
    ensures Matches(lower, cfg, TeamAdmin, id) <==> NamedTeamAdmin(lower, cfg, id)
    ensures Matches(lower, cfg, Admin, id) <==> NamedAdmin(lower, cfg, id)
  {
    MatchesMeans(lower, cfg, Publisher, id);
    MatchesMeans(lower, cfg, TeamAdmin, id);
    MatchesMeans(lower, cfg, Admin, id);
  }

  ghost predicate Granted(lower: string -> string, configs: seq<TeamConfig>, id: Identity, cfg: TeamConfig, role: Role)
  {
    Grant(cfg, role) in Grants(lower, configs, id)
  }

  /** What is granted is what a configuration names the identity for. */
  lemma GrantedExactly(lower: string -> string, configs: seq<TeamConfig>, id: Identity, cfg: TeamConfig)
    ensures Granted(lower, configs, id, cfg, Publisher) <==> cfg in configs && NamedPublisher(lower, cfg, id)
    ensures Granted(lower, configs, id, cfg, TeamAdmin) <==> cfg in configs && NamedTeamAdmin(lower, cfg, id)
    ensures Granted(lower, configs, id, cfg, Admin) <==> cfg in configs && NamedAdmin(lower, cfg, id)
  {
    RolesMean(lower, cfg, id);
    GrantsAreMatches(lower, configs, id, cfg, Publisher);
    GrantsAreMatches(lower, configs, id, cfg, TeamAdmin);
    GrantsAreMatches(lower, configs, id, cfg, Admin);
  }

  lemma GrantsAreMatches(lower: string -> string, configs: seq<TeamConfig>, id: Identity, cfg: TeamConfig, role: Role)
    ensures Granted(lower, configs, id, cfg, role) <==> cfg in configs && Matches(lower, cfg, role, id)
  {
    assert role in ROLES;
  }

  lemma GrantIsGranted(lower: string -> string, configs: seq<TeamConfig>, id: Identity, g: Grant)
    requires g in Grants(lower, configs, id)
    ensures Granted(lower, configs, id, g.cfg, g.role)
  {
  }

  /** An identity is let in exactly when some configuration names it for something. */
  lemma LetInAgreesWithSearch(lower: string -> string, configs: seq<TeamConfig>, id: Identity)
    ensures Grants(lower, configs, id) != {}
            <==> exists cfg :: cfg in configs
                               && (NamedPublisher(lower, cfg, id) || NamedTeamAdmin(lower, cfg, id) || NamedAdmin(lower, cfg, id))
  {
    var grants := Grants(lower, configs, id);
    if grants != {} {
      var g :| g in grants;
      GrantIsGranted(lower, configs, id, g);
      GrantedExactly(lower, configs, id, g.cfg);
    }
    forall cfg | cfg in configs && (NamedPublisher(lower, cfg, id) || NamedTeamAdmin(lower, cfg, id) || NamedAdmin(lower, cfg, id))
      ensures grants != {}
    {
      GrantedExactly(lower, configs, id, cfg);
    }
  }

  /** A configuration has the owner, and some grant of it lets the identity publish. */
  predicate LetsPublish(grants: set<Grant>, cfg: TeamConfig, owner: string)
  {
    HasOwner(cfg, owner) && (Grant(cfg, Publisher) in grants || Grant(cfg, TeamAdmin) in grants)
  }

  lemma PublishingBySums(p: Principal, grants: set<Grant>, owner: string)
    requires Sums(p, grants)
    ensures p.CanPublishOwner(owner) <==> exists cfg :: LetsPublish(grants, cfg, owner)
  {
    if p.CanPublishOwner(owner) {
      var g :| g in grants && g.role != Admin && owner in Owners(g.cfg);
      assert LetsPublish(grants, g.cfg, owner);
    }
    if cfg :| LetsPublish(grants, cfg, owner) {
      var g := Grant(cfg, if Grant(cfg, Publisher) in grants then Publisher else TeamAdmin);
      assert g in grants && owner in Owners(g.cfg);
    }
  }

  predicate LetsDelete(grants: set<Grant>, cfg: TeamConfig, owner: string)
  {
    Grant(cfg, Admin) in grants || (cfg.team == owner && Grant(cfg, TeamAdmin) in grants)
  }

  lemma DeletingBySums(p: Principal, grants: set<Grant>, owner: string)
    requires Sums(p, grants)
    ensures p.CanDeleteOwner(owner) <==> exists cfg :: LetsDelete(grants, cfg, owner)
  {
    if p.canManageTeam {
      var g :| g in grants && g.role == TeamAdmin;
      assert g.cfg.team in p.managedTeams;
    }
    if p.CanDeleteOwner(owner) {
      var g :| g in grants && (g.role == Admin || (g.role == TeamAdmin && g.cfg.team == owner));
      assert LetsDelete(grants, g.cfg, owner);
    }
    if cfg :| LetsDelete(grants, cfg, owner) {
      var g := Grant(cfg, if Grant(cfg, Admin) in grants then Admin else TeamAdmin);
      assert g in grants;
    }
  }

  /**
   An identity may publish to an owner exactly when some publish or team-admin
   mapping of a configuration that has the owner names it.
   */
  lemma PublishAgreesWithSearch(lower: string -> string, configs: seq<TeamConfig>, id: Identity, p: Principal, owner: string)
    requires Sums(p, Grants(lower, configs, id))
    ensures p.CanPublishOwner(owner)
            <==> exists cfg :: cfg in configs && HasOwner(cfg, owner)
                               && (NamedPublisher(lower, cfg, id) || NamedTeamAdmin(lower, cfg, id))
  {
    PublishingBySums(p, Grants(lower, configs, id), owner);
    SearchForPublishing(lower, configs, id, owner);
  }

  lemma SearchForPublishing(lower: string -> string, configs: seq<TeamConfig>, id: Identity, owner: string)
    ensures (exists cfg :: LetsPublish(Grants(lower, configs, id), cfg, owner))
            <==> exists cfg :: cfg in configs && HasOwner(cfg, owner)
                               && (NamedPublisher(lower, cfg, id) || NamedTeamAdmin(lower, cfg, id))
  {
    forall cfg: TeamConfig
      ensures LetsPublish(Grants(lower, configs, id), cfg, owner)
              <==> cfg in configs && HasOwner(cfg, owner) && (NamedPublisher(lower, cfg, id) || NamedTeamAdmin(lower, cfg, id))
    {
      GrantedExactly(lower, configs, id, cfg);
    }
  }

  /** It may delete from an owner exactly when an admin mapping names it, or a team-admin mapping of that very team. */
  lemma DeleteAgreesWithSearch(lower: string -> string, configs: seq<TeamConfig>, id: Identity, p: Principal, owner: string)
    requires Sums(p, Grants(lower, configs, id))
    ensures p.CanDeleteOwner(owner)
            <==> exists cfg :: cfg in configs
                               && (NamedAdmin(lower, cfg, id) || (cfg.team == owner && NamedTeamAdmin(lower, cfg, id)))
  {
    DeletingBySums(p, Grants(lower, configs, id), owner);
    forall cfg: TeamConfig
      ensures LetsDelete(Grants(lower, configs, id), cfg, owner)
              <==> cfg in configs && (NamedAdmin(lower, cfg, id) || (cfg.team == owner && NamedTeamAdmin(lower, cfg, id)))
    {
      GrantedExactly(lower, configs, id, cfg);
    }
  }

  /**
   With accepted configurations, only the reserved team's mappings make admins, and an
   identity can only publish to owners that may own modules, or to the bootstrap team.
   */
  lemma RolesAreKeptApart(lower: string -> string, configs: seq<TeamConfig>, id: Identity, p: Principal, owner: string)
    requires Accepted(lower, configs) && Sums(p, Grants(lower, configs, id))
    ensures p.canAdmin <==> exists cfg :: cfg in configs && cfg.team == "platform-admin" && NamedAdmin(lower, cfg, id)
    ensures p.CanPublishOwner(owner) ==> ValidOwner(owner) || owner == "bootstrap-admin"
  {
    AdminsAreGlobal(lower, configs, id, p);
    PublishingBySums(p, Grants(lower, configs, id), owner);
    if p.CanPublishOwner(owner) {
      var cfg :| LetsPublish(Grants(lower, configs, id), cfg, owner);
      GrantedExactly(lower, configs, id, cfg);
      ListsAreKeptApart(lower, configs, cfg, id);
      OwnersAreValid(lower, configs, cfg, owner);
    }
  }

  lemma AdminsAreGlobal(lower: string -> string, configs: seq<TeamConfig>, id: Identity, p: Principal)
    requires Accepted(lower, configs) && Sums(p, Grants(lower, configs, id))
    ensures p.canAdmin <==> exists cfg :: cfg in configs && cfg.team == "platform-admin" && NamedAdmin(lower, cfg, id)
  {
    if p.canAdmin {
      var g :| g in Grants(lower, configs, id) && g.role == Admin;
      GrantIsGranted(lower, configs, id, g);
      GrantedExactly(lower, configs, id, g.cfg);
      ListsAreKeptApart(lower, configs, g.cfg, id);
    }
    forall cfg | cfg in configs && NamedAdmin(lower, cfg, id) ensures p.canAdmin {
      GrantedExactly(lower, configs, id, cfg);
      assert Grant(cfg, Admin).role == Admin;
    }
  }

  lemma ListsAreKeptApart(lower: string -> string, configs: seq<TeamConfig>, cfg: TeamConfig, id: Identity)
    requires Accepted(lower, configs) && cfg in configs
    ensures NamedAdmin(lower, cfg, id) ==> cfg.team == "platform-admin"
    ensures NamedPublisher(lower, cfg, id) || NamedTeamAdmin(lower, cfg, id) ==> cfg.team != "platform-admin"
  {
    assert ValidConfig(cfg);
  }

  lemma OwnersAreValid(lower: string -> string, configs: seq<TeamConfig>, cfg: TeamConfig, owner: string)
    requires Accepted(lower, configs) && cfg in configs && HasOwner(cfg, owner) && cfg.team != "platform-admin"
    ensures ValidOwner(owner) || owner == "bootstrap-admin"
  {
    assert ValidConfig(cfg);
  }

  lemma {:induction false} GroupKeysAre(lower: string -> string, groups: seq<string>, key: string)
    ensures key in GroupKeys(lower, groups) <==> exists g :: g in groups && Normal(lower, Group, g) == key
  {
    if groups != [] {
      GroupKeysAre(lower, groups[..|groups| - 1], key);
      assert groups == groups[..|groups| - 1] + [groups[|groups| - 1]];
    }
  }

  ghost predicate SameClaims(a: Identity, b: Identity)
  {
    a.email == b.email && a.subject == b.subject && forall g :: g in a.groups <==> g in b.groups
  }

  lemma SameClaimsSameGrants(lower: string -> string, configs: seq<TeamConfig>, configs': seq<TeamConfig>, id: Identity, id': Identity)
    requires SameClaims(id, id') && forall cfg :: cfg in configs <==> cfg in configs'
    ensures Grants(lower, configs, id) == Grants(lower, configs', id')
  {
    forall key ensures key in GroupKeys(lower, id.groups) <==> key in GroupKeys(lower, id'.groups) {
      GroupKeysAre(lower, id.groups, key);
      GroupKeysAre(lower, id'.groups, key);
    }
    assert Keys(lower, id, Group) == Keys(lower, id', Group) && Keys(lower, id, Subject) == Keys(lower, id', Subject);
    assert Keys(lower, id, Email) == Keys(lower, id', Email) && Keys(lower, id, Domain) == Keys(lower, id', Domain);
    forall cfg, role ensures Matches(lower, cfg, role, id) == Matches(lower, cfg, role, id') {
      SameMatches(lower, cfg, role, id, id');
    }
  }

  lemma SameMatches(lower: string -> string, cfg: TeamConfig, role: Role, id: Identity, id': Identity)
    requires Keys(lower, id, Group) == Keys(lower, id', Group) && Keys(lower, id, Subject) == Keys(lower, id', Subject)
    requires Keys(lower, id, Email) == Keys(lower, id', Email) && Keys(lower, id, Domain) == Keys(lower, id', Domain)
    ensures Matches(lower, cfg, role, id) == Matches(lower, cfg, role, id')
  {
  }

  /**
   Neither the order of the configurations nor that of the groups changes what
   an identity may do, nor the team shown for admins and team admins.
   */
  lemma OrderDoesNotMatter(lower: string -> string, configs: seq<TeamConfig>, configs': seq<TeamConfig>,
                           id: Identity, id': Identity, p: Principal, p': Principal)
    requires Accepted(lower, configs) && SameClaims(id, id') && forall cfg :: cfg in configs <==> cfg in configs'
    requires Sums(p, Grants(lower, configs, id)) && TeamRight(p)
    requires Sums(p', Grants(lower, configs', id')) && TeamRight(p')
    ensures p.canRead == p'.canRead && p.canPublish == p'.canPublish
    ensures p.canManageTeam == p'.canManageTeam && p.canAdmin == p'.canAdmin
    ensures p.publishOwners == p'.publishOwners && p.managedTeams == p'.managedTeams
    ensures p.canAdmin || p.canManageTeam ==> p.team == p'.team && forall o :: p.CanDeleteOwner(o) == p'.CanDeleteOwner(o)
    ensures forall o :: p.CanPublishOwner(o) == p'.CanPublishOwner(o)
  {
    SameClaimsSameGrants(lower, configs, configs', id, id');
    SameSums(p, p', Grants(lower, configs, id));
    if p.canManageTeam { TeamsAreNamed(lower, configs, id, p); }
    SameTeam(p, p');
  }

  lemma SameTeam(p: Principal, p': Principal)
    requires p.canAdmin == p'.canAdmin && p.canManageTeam == p'.canManageTeam && p.managedTeams == p'.managedTeams
    requires TeamRight(p) && TeamRight(p') && (p.canManageTeam ==> p.managedTeams != {} && "" !in p.managedTeams)
    ensures p.canAdmin || p.canManageTeam ==> p.team == p'.team
  {
    CompareFlip(p.team, p'.team);
    CompareEqual(p.team, p'.team);
  }

  lemma TeamsAreNamed(lower: string -> string, configs: seq<TeamConfig>, id: Identity, p: Principal)
    requires Accepted(lower, configs) && Sums(p, Grants(lower, configs, id)) && p.canManageTeam
    ensures p.managedTeams != {} && "" !in p.managedTeams
  {
    var grants := Grants(lower, configs, id);
    var g :| g in grants && g.role == TeamAdmin;
    assert g.cfg.team in p.managedTeams;
    forall t | t in p.managedTeams ensures t != "" {
      var h :| h in grants && h.role == TeamAdmin && h.cfg.team == t;
      assert h.cfg in configs && ValidConfig(h.cfg);
    }
  }

  lemma SameSums(p: Principal, p': Principal, grants: set<Grant>)
    requires Sums(p, grants) && Sums(p', grants)
    ensures p.canRead == p'.canRead && p.canPublish == p'.canPublish
    ensures p.canManageTeam == p'.canManageTeam && p.canAdmin == p'.canAdmin
    ensures p.publishOwners == p'.publishOwners && p.managedTeams == p'.managedTeams
  {
    forall o ensures o in p.publishOwners <==> o in p'.publishOwners {}
    forall t ensures t in p.managedTeams <==> t in p'.managedTeams {}
  }
}
