/**
  The whole-registry check and the primary-scope check: packages/domain/src/scope.ts.
 */
module Registry {
  import opened Wrappers
  import opened Reducers

  datatype Access = Read | Write
  datatype Service = Service(id: string, name: string, repositoryAliases: seq<string>)
  datatype Environment = Environment(id: string, serviceId: string, name: string)
  datatype CredentialRef = CredentialRef(id: string, environmentId: string, access: Access, name: string,
                                         secretName: string)
  datatype SourceBinding = SourceBinding(id: string, environmentId: string, name: string,
                                         credentialRefId: Option<string>)
  datatype ActionPolicy = ActionPolicy(id: string, environmentId: string, writeCredentialRefIds: seq<string>)

  datatype Snapshot = Snapshot(services: seq<Service>, environments: seq<Environment>,
                               sourceBindings: seq<SourceBinding>,
                               credentialRefs: seq<CredentialRef>, actionPolicies: seq<ActionPolicy>)

  datatype Kind = Services | Environments | SourceBindings | CredentialRefs | ActionPolicies

  /** An issue and its path: the record it is about, and the entry within the record where there is one. */
  datatype Issue =
    | DuplicateId(kind: Kind, index: nat)
    | DuplicateServiceName(index: nat)
    | AliasListedTwice(index: nat, entry: nat)
    | AliasOfAnother(index: nat, entry: nat)
    | UnknownService(index: nat)
    | DuplicateEnvironmentName(index: nat)
    | RefOfUnknownEnvironment(index: nat)
    | DuplicateRefName(index: nat)
    | SharedSecret(index: nat)
    | BindingOfUnknownEnvironment(index: nat)
    | DuplicateBindingName(index: nat)
    | BindingToUnknownRef(index: nat)
    | BindingToForeignRef(index: nat)
    | BindingToWriteRef(index: nat)
    | PolicyOfUnknownEnvironment(index: nat)
    | SecondPolicy(index: nat)
    | PolicyToUnknownRef(index: nat, entry: nat)
    | PolicyToForeignRef(index: nat, entry: nat)
    | PolicyToReadRef(index: nat, entry: nat)

  function IdsOf(r: Snapshot, kind: Kind): seq<string> {
    match kind
    case Services => Ids((x: Service) => x.id, r.services)
    case Environments => Ids((x: Environment) => x.id, r.environments)
    case SourceBindings => Ids((x: SourceBinding) => x.id, r.sourceBindings)
    case CredentialRefs => Ids((x: CredentialRef) => x.id, r.credentialRefs)
    case ActionPolicies => Ids((x: ActionPolicy) => x.id, r.actionPolicies)
  }

  function RefId(ref: CredentialRef): string { ref.id }

  predicate KnowsService(r: Snapshot, id: string) {
    exists s :: s in r.services && s.id == id
  }

  predicate KnowsEnvironment(r: Snapshot, id: string) {
    exists e :: e in r.environments && e.id == id
  }

  predicate Earlier<K(==)>(keys: seq<K>, i: nat) {
    i < |keys| && exists j :: 0 <= j < i && keys[j] == keys[i]
  }

  function ServiceNames(r: Snapshot): seq<string> {
    Ids((s: Service) => s.name, r.services)
  }

  function EnvironmentNames(r: Snapshot): seq<(string, string)> {
    Ids((e: Environment) => (e.serviceId, e.name), r.environments)
  }

  function RefNames(r: Snapshot): seq<(string, string)> {
    Ids((c: CredentialRef) => (c.environmentId, c.name), r.credentialRefs)
  }

  function BindingNames(r: Snapshot): seq<(string, string)> {
    Ids((b: SourceBinding) => (b.environmentId, b.name), r.sourceBindings)
  }

  function PolicyEnvironments(r: Snapshot): seq<string> {
    Ids((p: ActionPolicy) => p.environmentId, r.actionPolicies)
  }

  predicate SharesSecret(r: Snapshot, ref: CredentialRef) {
    && ref.access.Write?
    && exists s :: s in r.credentialRefs && s.environmentId == ref.environmentId && s.access.Read?
                   && s.secretName == ref.secretName
  }

  /** What a reference from an environment to a credential is answered with, when this access is called for. */
  datatype RefFault = NoFault | UnknownRef | ForeignRef | WrongAccess

  function FaultOf(r: Snapshot, environmentId: string, refId: string, access: Access): RefFault {
    match Lookup(RefId, r.credentialRefs, refId)
    case None => UnknownRef
    case Some(ref) =>
      if ref.environmentId != environmentId then ForeignRef
      else if ref.access != access then WrongAccess
      else NoFault
  }

  predicate BindingFaulty(r: Snapshot, i: nat, fault: RefFault) {
    && i < |r.sourceBindings| && r.sourceBindings[i].credentialRefId.Some?
    && FaultOf(r, r.sourceBindings[i].environmentId, r.sourceBindings[i].credentialRefId.value, Read) == fault
  }

  predicate PolicyFaulty(r: Snapshot, i: nat, k: nat, fault: RefFault) {
    && i < |r.actionPolicies| && k < |r.actionPolicies[i].writeCredentialRefIds|
    && FaultOf(r, r.actionPolicies[i].environmentId, r.actionPolicies[i].writeCredentialRefIds[k], Write) == fault
  }

  predicate ServiceRaises(r: Snapshot, x: Issue) {
    match x
    case DuplicateServiceName(i) => Earlier(ServiceNames(r), i)
    case AliasListedTwice(i, a) => i < |r.services| && Earlier(r.services[i].repositoryAliases, a)
    case AliasOfAnother(i, a) =>
      && i < |r.services| && a < |r.services[i].repositoryAliases| && !Earlier(r.services[i].repositoryAliases, a)
      && exists j :: 0 <= j < i && r.services[i].repositoryAliases[a] in r.services[j].repositoryAliases
    case _ => false
  }

  predicate EnvironmentRaises(r: Snapshot, x: Issue) {
    match x
    case UnknownService(i) => i < |r.environments| && !KnowsService(r, r.environments[i].serviceId)
    case DuplicateEnvironmentName(i) => Earlier(EnvironmentNames(r), i)
    case _ => false
  }

  predicate RefRaises(r: Snapshot, x: Issue) {
    match x
    case RefOfUnknownEnvironment(i) => i < |r.credentialRefs| && !KnowsEnvironment(r, r.credentialRefs[i].environmentId)
    case DuplicateRefName(i) => Earlier(RefNames(r), i)
    case SharedSecret(i) => i < |r.credentialRefs| && SharesSecret(r, r.credentialRefs[i])
    case _ => false
  }

  predicate BindingRaises(r: Snapshot, x: Issue) {
    match x
    case BindingOfUnknownEnvironment(i) =>
      i < |r.sourceBindings| && !KnowsEnvironment(r, r.sourceBindings[i].environmentId)
    case DuplicateBindingName(i) => Earlier(BindingNames(r), i)
    case BindingToUnknownRef(i) => BindingFaulty(r, i, UnknownRef)
    case BindingToForeignRef(i) => BindingFaulty(r, i, ForeignRef)
    case BindingToWriteRef(i) => BindingFaulty(r, i, WrongAccess)
    case _ => false
  }

  predicate PolicyRaises(r: Snapshot, x: Issue) {
    match x
    case PolicyOfUnknownEnvironment(i) =>
      i < |r.actionPolicies| && !KnowsEnvironment(r, r.actionPolicies[i].environmentId)
    case SecondPolicy(i) => Earlier(PolicyEnvironments(r), i)
    case PolicyToUnknownRef(i, k) => PolicyFaulty(r, i, k, UnknownRef)
    case PolicyToForeignRef(i, k) => PolicyFaulty(r, i, k, ForeignRef)
    case PolicyToReadRef(i, k) => PolicyFaulty(r, i, k, WrongAccess)
    case _ => false
  }

  /** The registry raises this issue. */
  predicate Raises(r: Snapshot, x: Issue) {
    || (x.DuplicateId? && Earlier(IdsOf(r, x.kind), x.index))
    || ServiceRaises(r, x) || EnvironmentRaises(r, x) || RefRaises(r, x) || BindingRaises(r, x) || PolicyRaises(r, x)
  }

  // ---- The loops --------------------------------------------------------------------------------------------------

  method SeenIds(kind: Kind, ids: seq<string>) returns (issues: seq<Issue>)
    ensures forall x :: x in issues <==> x.DuplicateId? && x.kind == kind && Earlier(ids, x.index)
  {
    issues := [];
    var seen: set<string> := {};
    for i := 0 to |ids|
      invariant forall k :: k in seen <==> k in ids[..i]
      invariant forall x :: x in issues <==> x.DuplicateId? && x.kind == kind && x.index < i && Earlier(ids, x.index)
    {
      InPrefix(ids, i);
      if ids[i] in seen { issues := issues + [DuplicateId(kind, i)]; }
      seen := seen + {ids[i]};
    }
  }

  lemma InPrefix<K>(keys: seq<K>, i: nat)
    requires i < |keys|
    ensures Earlier(keys, i) <==> keys[i] in keys[..i]
    ensures forall k :: k in keys[..i + 1] <==> k in keys[..i] || k == keys[i]
  {
    if keys[i] in keys[..i] {
      var j :| 0 <= j < i && keys[..i][j] == keys[i];
      assert keys[j] == keys[i];
    }
    if Earlier(keys, i) {
      var j :| 0 <= j < i && keys[j] == keys[i];
      assert keys[..i][j] == keys[i];
    }
    assert keys[..i + 1] == keys[..i] + [keys[i]];
  }

  /** The inner loop over a service's aliases. */
  method CheckAliases(index: nat, aliases: seq<string>, taken: set<string>) returns (issues: seq<Issue>)
    ensures forall x :: x in issues <==>
              || (x.AliasListedTwice? && x.index == index && Earlier(aliases, x.entry))
              || (x.AliasOfAnother? && x.index == index && x.entry < |aliases| && !Earlier(aliases, x.entry)
                  && aliases[x.entry] in taken)
  {
    issues := [];
    var own, all := {}, taken;
    for a := 0 to |aliases|
      invariant forall k :: k in own <==> k in aliases[..a]
      invariant all == taken + own
      invariant forall x :: x in issues <==>
                  || (x.AliasListedTwice? && x.index == index && x.entry < a && Earlier(aliases, x.entry))
                  || (x.AliasOfAnother? && x.index == index && x.entry < a && !Earlier(aliases, x.entry)
                      && aliases[x.entry] in taken)
    {
      InPrefix(aliases, a);
      if aliases[a] in own {
        issues := issues + [AliasListedTwice(index, a)];
      } else if aliases[a] in all {
        issues := issues + [AliasOfAnother(index, a)];
      }
      own, all := own + {aliases[a]}, all + {aliases[a]};
    }
  }

  method CheckServices(r: Snapshot) returns (issues: seq<Issue>)
    ensures forall x :: x in issues <==> ServiceRaises(r, x)
  {
    issues := [];
    var names: set<string>, taken: set<string> := {}, {};
    for i := 0 to |r.services|
      invariant forall k :: k in names <==> k in ServiceNames(r)[..i]
      invariant forall k :: k in taken <==> exists j :: 0 <= j < i && k in r.services[j].repositoryAliases
      invariant forall x :: x in issues <==> x.index < i && ServiceRaises(r, x)
    {
      InPrefix(ServiceNames(r), i);
      var service := r.services[i];
      if service.name in names { issues := issues + [DuplicateServiceName(i)]; }
      names := names + {service.name};
      var more := CheckAliases(i, service.repositoryAliases, taken);
      issues := issues + more;
      taken := taken + set a | a in service.repositoryAliases;
    }
  }

  function At(names: map<string, set<string>>, key: string): set<string> {
    if key in names then names[key] else {}
  }

  /** The two-level map of names holds the pairs seen so far. */
  ghost predicate Holds(names: map<string, set<string>>, pairs: seq<(string, string)>) {
    forall owner, name :: name in At(names, owner) <==> (owner, name) in pairs
  }

  lemma HoldsOneMore(names: map<string, set<string>>, pairs: seq<(string, string)>, i: nat)
    requires i < |pairs| && Holds(names, pairs[..i])
    ensures Holds(names[pairs[i].0 := At(names, pairs[i].0) + {pairs[i].1}], pairs[..i + 1])
    ensures Earlier(pairs, i) <==> pairs[i].1 in At(names, pairs[i].0)
  {
    InPrefix(pairs, i);
    assert (pairs[i].0, pairs[i].1) == pairs[i];
  }

  method CheckEnvironments(r: Snapshot) returns (issues: seq<Issue>)
    ensures forall x :: x in issues <==> EnvironmentRaises(r, x)
  {
    issues := [];
    var serviceIds := set s | s in r.services :: s.id;
    var namesByService: map<string, set<string>> := map[];
    for i := 0 to |r.environments|
      invariant Holds(namesByService, EnvironmentNames(r)[..i])
      invariant forall x :: x in issues <==> x.index < i && EnvironmentRaises(r, x)
    {
      HoldsOneMore(namesByService, EnvironmentNames(r), i);
      var environment := r.environments[i];
      var names := At(namesByService, environment.serviceId);
      var more := EnvironmentIssues(r, i, environment.serviceId in serviceIds, environment.name in names);
      issues := issues + more;
      namesByService := namesByService[environment.serviceId := names + {environment.name}];
    }
  }

  /** The body of the loop over environments. */
  method EnvironmentIssues(r: Snapshot, i: nat, known: bool, taken: bool) returns (issues: seq<Issue>)
    requires i < |r.environments| && known == KnowsService(r, r.environments[i].serviceId)
    requires taken == Earlier(EnvironmentNames(r), i)
    ensures forall x :: x in issues <==> x.index == i && EnvironmentRaises(r, x)
  {
    issues := [];
    if !known { issues := issues + [UnknownService(i)]; }
    if taken { issues := issues + [DuplicateEnvironmentName(i)]; }
  }

  method CheckRefs(r: Snapshot) returns (issues: seq<Issue>)
    ensures forall x :: x in issues <==> RefRaises(r, x)
  {
    issues := [];
    var environmentIds := set e | e in r.environments :: e.id;
    var names: map<string, set<string>> := map[];
    for i := 0 to |r.credentialRefs|
      invariant Holds(names, RefNames(r)[..i])
      invariant forall x :: x in issues <==> x.index < i && RefRaises(r, x)
    {
      HoldsOneMore(names, RefNames(r), i);
      var ref := r.credentialRefs[i];
      var own := At(names, ref.environmentId);
      var more := RefIssues(r, i, ref.environmentId in environmentIds, ref.name in own);
      issues := issues + more;
      names := names[ref.environmentId := own + {ref.name}];
    }
  }

  /** The body of the loop over credential references. */
  method RefIssues(r: Snapshot, i: nat, known: bool, taken: bool) returns (issues: seq<Issue>)
    requires i < |r.credentialRefs| && known == KnowsEnvironment(r, r.credentialRefs[i].environmentId)
    requires taken == Earlier(RefNames(r), i)
    ensures forall x :: x in issues <==> x.index == i && RefRaises(r, x)
  {
    issues := [];
    if !known { issues := issues + [RefOfUnknownEnvironment(i)]; }
    if taken { issues := issues + [DuplicateRefName(i)]; }
    if SharesSecret(r, r.credentialRefs[i]) { issues := issues + [SharedSecret(i)]; }
  }

  /** What the loop over source bindings says of one binding's credential. */
  method CheckBindingRef(r: Snapshot, i: nat) returns (issues: seq<Issue>)
    requires i < |r.sourceBindings|
    ensures forall x :: x in issues <==>
              x.index == i && (x.BindingToUnknownRef? || x.BindingToForeignRef? || x.BindingToWriteRef?)
                && BindingRaises(r, x)
  {
    var binding := r.sourceBindings[i];
    if binding.credentialRefId.None? { return []; }
    var credential := Lookup(RefId, r.credentialRefs, binding.credentialRefId.value);
    if credential.None? { return [BindingToUnknownRef(i)]; }
    if credential.value.environmentId != binding.environmentId { return [BindingToForeignRef(i)]; }
    if credential.value.access != Read { return [BindingToWriteRef(i)]; }
    return [];
  }

  method CheckBindings(r: Snapshot) returns (issues: seq<Issue>)
    ensures forall x :: x in issues <==> BindingRaises(r, x)
  {
    issues := [];
    var environmentIds := set e | e in r.environments :: e.id;
    var names: map<string, set<string>> := map[];
    for i := 0 to |r.sourceBindings|
      invariant Holds(names, BindingNames(r)[..i])
      invariant forall x :: x in issues <==> x.index < i && BindingRaises(r, x)
    {
      HoldsOneMore(names, BindingNames(r), i);
      var binding := r.sourceBindings[i];
      var own := At(names, binding.environmentId);
      var more := BindingIssues(r, i, binding.environmentId in environmentIds, binding.name in own);
      issues := issues + more;
      names := names[binding.environmentId := own + {binding.name}];
    }
  }

  /** The body of the loop over source bindings. */
  method BindingIssues(r: Snapshot, i: nat, known: bool, taken: bool) returns (issues: seq<Issue>)
    requires i < |r.sourceBindings| && known == KnowsEnvironment(r, r.sourceBindings[i].environmentId)
    requires taken == Earlier(BindingNames(r), i)
    ensures forall x :: x in issues <==> x.index == i && BindingRaises(r, x)
  {
    issues := CheckBindingRef(r, i);
    if taken { issues := [DuplicateBindingName(i)] + issues; }
    if !known { issues := [BindingOfUnknownEnvironment(i)] + issues; }
  }

  /** The inner loop over a policy's references. */
  method CheckPolicyRefs(r: Snapshot, i: nat) returns (issues: seq<Issue>)
    requires i < |r.actionPolicies|
    ensures forall x :: x in issues <==>
              x.index == i && (x.PolicyToUnknownRef? || x.PolicyToForeignRef? || x.PolicyToReadRef?)
                && PolicyRaises(r, x)
  {
    issues := [];
    var policy := r.actionPolicies[i];
    for k := 0 to |policy.writeCredentialRefIds|
      invariant forall x :: x in issues <==>
                  && x.index == i && (x.PolicyToUnknownRef? || x.PolicyToForeignRef? || x.PolicyToReadRef?)
                  && x.entry < k && PolicyRaises(r, x)
    {
      var credential := Lookup(RefId, r.credentialRefs, policy.writeCredentialRefIds[k]);
      if credential.None? {
        issues := issues + [PolicyToUnknownRef(i, k)];
      } else if credential.value.environmentId != policy.environmentId {
        issues := issues + [PolicyToForeignRef(i, k)];
      } else if credential.value.access != Write {
        issues := issues + [PolicyToReadRef(i, k)];
      }
    }
  }

  method CheckPolicies(r: Snapshot) returns (issues: seq<Issue>)
    ensures forall x :: x in issues <==> PolicyRaises(r, x)
  {
    issues := [];
    var environmentIds := set e | e in r.environments :: e.id;
    var seen: set<string> := {};
    for i := 0 to |r.actionPolicies|
      invariant forall k :: k in seen <==> k in PolicyEnvironments(r)[..i]
      invariant forall x :: x in issues <==> x.index < i && PolicyRaises(r, x)
    {
      InPrefix(PolicyEnvironments(r), i);
      var policy := r.actionPolicies[i];
      var more := PolicyIssues(r, i, policy.environmentId in environmentIds, policy.environmentId in seen);
      issues := issues + more;
      seen := seen + {policy.environmentId};
    }
  }

  /** The body of the loop over action policies. */
  method PolicyIssues(r: Snapshot, i: nat, known: bool, taken: bool) returns (issues: seq<Issue>)
    requires i < |r.actionPolicies| && known == KnowsEnvironment(r, r.actionPolicies[i].environmentId)
    requires taken == Earlier(PolicyEnvironments(r), i)
    ensures forall x :: x in issues <==> x.index == i && PolicyRaises(r, x)
  {
    issues := CheckPolicyRefs(r, i);
    if taken { issues := [SecondPolicy(i)] + issues; }
    if !known { issues := [PolicyOfUnknownEnvironment(i)] + issues; }
  }

  /** The check of RegistrySnapshotSchema: it reports exactly what the registry raises. */
  method CheckRegistry(r: Snapshot) returns (issues: seq<Issue>)
    ensures forall x :: x in issues <==> Raises(r, x)
    ensures issues == [] <==> Sound(r)
  {
    var a := SeenIds(Services, IdsOf(r, Services));
    var b := SeenIds(Environments, IdsOf(r, Environments));
    var c := SeenIds(SourceBindings, IdsOf(r, SourceBindings));
    var d := SeenIds(CredentialRefs, IdsOf(r, CredentialRefs));
    var e := SeenIds(ActionPolicies, IdsOf(r, ActionPolicies));
    var f := CheckServices(r);
    var g := CheckEnvironments(r);
    var h := CheckRefs(r);
    var i := CheckBindings(r);
    var j := CheckPolicies(r);
    issues := a + b + c + d + e + f + g + h + i + j;
    NoIssueMeansSound(r);
    if issues != [] { assert issues[0] in issues; }
  }

  // ---- What an accepted registry is -------------------------------------------------------------------------------

  predicate SoundIds(r: Snapshot) {
    && Distinct(IdsOf(r, Services)) && Distinct(IdsOf(r, Environments)) && Distinct(IdsOf(r, SourceBindings))
    && Distinct(IdsOf(r, CredentialRefs)) && Distinct(IdsOf(r, ActionPolicies))
  }

  /** No two services share a name or an alias, and none lists an alias twice. */
  predicate SoundServices(r: Snapshot) {
    && (forall i, j :: 0 <= i < j < |r.services| ==> r.services[i].name != r.services[j].name)
    && (forall i :: 0 <= i < |r.services| ==> Distinct(r.services[i].repositoryAliases))
    && (forall i, j, alias :: 0 <= i < j < |r.services| && alias in r.services[i].repositoryAliases ==>
          alias !in r.services[j].repositoryAliases)
  }

  predicate SoundEnvironments(r: Snapshot) {
    && (forall e :: e in r.environments ==> KnowsService(r, e.serviceId))
    && (forall i, j :: 0 <= i < j < |r.environments| ==>
          r.environments[i].serviceId != r.environments[j].serviceId
            || r.environments[i].name != r.environments[j].name)
  }

  /** A reading and a writing credential of one environment. */
  predicate Rivals(c: CredentialRef, d: CredentialRef) {
    c.access.Read? && d.access.Write? && c.environmentId == d.environmentId
  }

  predicate SoundRefs(r: Snapshot) {
    && (forall c :: c in r.credentialRefs ==> KnowsEnvironment(r, c.environmentId))
    && (forall i, j :: 0 <= i < j < |r.credentialRefs| ==>
          || r.credentialRefs[i].environmentId != r.credentialRefs[j].environmentId
          || r.credentialRefs[i].name != r.credentialRefs[j].name)
    && (forall c, d :: c in r.credentialRefs && d in r.credentialRefs && Rivals(c, d) ==> c.secretName != d.secretName)
  }

  /** The environment has a credential with this id and access. */
  predicate HasRef(r: Snapshot, environmentId: string, refId: string, access: Access) {
    exists c :: c in r.credentialRefs && c.id == refId && c.environmentId == environmentId && c.access == access
  }

  predicate SoundBindings(r: Snapshot) {
    && (forall b :: b in r.sourceBindings ==>
          && KnowsEnvironment(r, b.environmentId)
          && (b.credentialRefId.Some? ==> HasRef(r, b.environmentId, b.credentialRefId.value, Read)))
    && (forall i, j :: 0 <= i < j < |r.sourceBindings| ==>
          || r.sourceBindings[i].environmentId != r.sourceBindings[j].environmentId
          || r.sourceBindings[i].name != r.sourceBindings[j].name)
  }

  predicate SoundPolicies(r: Snapshot) {
    && (forall p :: p in r.actionPolicies ==>
          && KnowsEnvironment(r, p.environmentId)
          && forall refId :: refId in p.writeCredentialRefIds ==> HasRef(r, p.environmentId, refId, Write))
    && (forall i, j :: 0 <= i < j < |r.actionPolicies| ==>
          r.actionPolicies[i].environmentId != r.actionPolicies[j].environmentId)
  }

  /** The registry's meaning, with no order and no first or last in it. */
  predicate Sound(r: Snapshot) {
    && SoundIds(r) && SoundServices(r) && SoundEnvironments(r) && SoundRefs(r) && SoundBindings(r) && SoundPolicies(r)
  }

  lemma NoEarlierMeansDistinct<K>(keys: seq<K>)
    ensures (forall i: nat :: !Earlier(keys, i)) <==> Distinct(keys)
  {
    if forall i: nat :: !Earlier(keys, i) {
      forall i, j | 0 <= i < j < |keys|
        ensures keys[i] != keys[j]
      {
        assert !Earlier(keys, j);
      }
    }
  }

  lemma IdsRaise(r: Snapshot)
    ensures (forall x: Issue :: x.DuplicateId? ==> !Raises(r, x)) <==> SoundIds(r)
  {
    forall kind: Kind
      ensures (forall i: nat :: !Raises(r, DuplicateId(kind, i))) <==> Distinct(IdsOf(r, kind))
    {
      NoEarlierMeansDistinct(IdsOf(r, kind));
      assert forall i: nat :: Raises(r, DuplicateId(kind, i)) == Earlier(IdsOf(r, kind), i);
    }
    assert forall x: Issue :: x.DuplicateId? ==> x == DuplicateId(x.kind, x.index);
  }

  lemma ServicesRaise(r: Snapshot)
    ensures (forall x :: !ServiceRaises(r, x)) <==> SoundServices(r)
  {
    NoEarlierMeansDistinct(ServiceNames(r));
    forall i | 0 <= i < |r.services| { NoEarlierMeansDistinct(r.services[i].repositoryAliases); }
    if forall x :: !ServiceRaises(r, x) {
      forall i: nat ensures !Earlier(ServiceNames(r), i) { assert !ServiceRaises(r, DuplicateServiceName(i)); }
      forall i: nat, a: nat | i < |r.services|
        ensures !Earlier(r.services[i].repositoryAliases, a)
      {
        assert !ServiceRaises(r, AliasListedTwice(i, a));
      }
      forall j: nat, a: nat | j < |r.services| && a < |r.services[j].repositoryAliases|
        ensures forall i :: 0 <= i < j ==> r.services[j].repositoryAliases[a] !in r.services[i].repositoryAliases
      {
        assert !ServiceRaises(r, AliasOfAnother(j, a));
      }
      assert forall i, j :: 0 <= i < j < |r.services| ==> ServiceNames(r)[i] != ServiceNames(r)[j];
    }
    if SoundServices(r) { assert Distinct(ServiceNames(r)); }
  }

  lemma EnvironmentsRaise(r: Snapshot)
    ensures (forall x :: !EnvironmentRaises(r, x)) <==> SoundEnvironments(r)
  {
    NoEarlierMeansDistinct(EnvironmentNames(r));
    if forall x :: !EnvironmentRaises(r, x) {
      forall i: nat
        ensures !Earlier(EnvironmentNames(r), i)
      {
        assert !EnvironmentRaises(r, DuplicateEnvironmentName(i));
      }
      forall e | e in r.environments
        ensures KnowsService(r, e.serviceId)
      {
        var i: nat :| i < |r.environments| && r.environments[i] == e;
        assert !EnvironmentRaises(r, UnknownService(i));
      }
      assert forall i, j :: 0 <= i < j < |r.environments| ==> EnvironmentNames(r)[i] != EnvironmentNames(r)[j];
    }
    if SoundEnvironments(r) { assert Distinct(EnvironmentNames(r)); }
  }

  lemma RefsRaise(r: Snapshot)
    ensures (forall x :: !RefRaises(r, x)) <==> SoundRefs(r)
  {
    NoEarlierMeansDistinct(RefNames(r));
    if forall x :: !RefRaises(r, x) {
      forall i: nat ensures !Earlier(RefNames(r), i) { assert !RefRaises(r, DuplicateRefName(i)); }
      forall c | c in r.credentialRefs
        ensures KnowsEnvironment(r, c.environmentId) && !SharesSecret(r, c)
      {
        var i: nat :| i < |r.credentialRefs| && r.credentialRefs[i] == c;
        assert !RefRaises(r, RefOfUnknownEnvironment(i)) && !RefRaises(r, SharedSecret(i));
      }
      assert forall i, j :: 0 <= i < j < |r.credentialRefs| ==> RefNames(r)[i] != RefNames(r)[j];
    }
    if SoundRefs(r) {
      assert Distinct(RefNames(r));
      assert forall c :: c in r.credentialRefs ==> !SharesSecret(r, c);
    }
  }

  /** With distinct ids the last credential with an id is the only one. */
  lemma FaultMeaning(r: Snapshot, environmentId: string, refId: string, access: Access)
    requires Distinct(IdsOf(r, CredentialRefs))
    ensures FaultOf(r, environmentId, refId, access) == NoFault <==> HasRef(r, environmentId, refId, access)
  {
    assert Ids(RefId, r.credentialRefs) == IdsOf(r, CredentialRefs);
    forall c | c in r.credentialRefs
      ensures Lookup(RefId, r.credentialRefs, c.id) == Some(c)
    {
      LookupIsMembership(RefId, r.credentialRefs, c);
    }
  }

  /** The k-th credential is the last with this id. */
  ghost predicate IsRef(r: Snapshot, refId: string, k: int) {
    && 0 <= k < |r.credentialRefs| && r.credentialRefs[k].id == refId
    && forall j :: k < j < |r.credentialRefs| ==> r.credentialRefs[j].id != refId
  }

  /** Each fault says which thing is wrong first: no such credential, another environment's, or the other access. */
  lemma FaultByFields(r: Snapshot, environmentId: string, refId: string, access: Access)
    ensures var fault := FaultOf(r, environmentId, refId, access);
            && (fault == UnknownRef <==> forall c :: c in r.credentialRefs ==> c.id != refId)
            && (fault == ForeignRef <==>
                  exists k :: IsRef(r, refId, k) && r.credentialRefs[k].environmentId != environmentId)
            && (fault == WrongAccess <==>
                  exists k :: IsRef(r, refId, k) && r.credentialRefs[k].environmentId == environmentId
                              && r.credentialRefs[k].access != access)
  {
    var k := LastIndex(RefId, r.credentialRefs, refId);
    assert forall j :: 0 <= j < |r.credentialRefs| ==> RefId(r.credentialRefs[j]) == r.credentialRefs[j].id;
    if k >= 0 { assert IsRef(r, refId, k) && r.credentialRefs[k] in r.credentialRefs; }
  }

  lemma BindingsRaise(r: Snapshot)
    requires Distinct(IdsOf(r, CredentialRefs))
    ensures (forall x :: !BindingRaises(r, x)) <==> SoundBindings(r)
  {
    if forall x :: !BindingRaises(r, x) { QuietBindingsAreSound(r); }
    if SoundBindings(r) { SoundBindingsAreQuiet(r); }
  }

  lemma QuietBindingsAreSound(r: Snapshot)
    requires Distinct(IdsOf(r, CredentialRefs)) && forall x :: !BindingRaises(r, x)
    ensures SoundBindings(r)
  {
    forall i: nat ensures !Earlier(BindingNames(r), i) { assert !BindingRaises(r, DuplicateBindingName(i)); }
    NoEarlierMeansDistinct(BindingNames(r));
    forall b | b in r.sourceBindings
      ensures KnowsEnvironment(r, b.environmentId)
      ensures b.credentialRefId.Some? ==> HasRef(r, b.environmentId, b.credentialRefId.value, Read)
    {
      var i: nat :| i < |r.sourceBindings| && r.sourceBindings[i] == b;
      QuietBindingIsSound(r, i);
    }
    assert forall i, j :: 0 <= i < j < |r.sourceBindings| ==> BindingNames(r)[i] != BindingNames(r)[j];
  }

  lemma QuietBindingIsSound(r: Snapshot, i: nat)
    requires Distinct(IdsOf(r, CredentialRefs)) && (forall x :: !BindingRaises(r, x)) && i < |r.sourceBindings|
    ensures var b := r.sourceBindings[i];
            && KnowsEnvironment(r, b.environmentId)
            && (b.credentialRefId.Some? ==> HasRef(r, b.environmentId, b.credentialRefId.value, Read))
  {
    var b := r.sourceBindings[i];
    assert !BindingRaises(r, BindingOfUnknownEnvironment(i)) && !BindingRaises(r, BindingToUnknownRef(i));
    assert !BindingRaises(r, BindingToForeignRef(i)) && !BindingRaises(r, BindingToWriteRef(i));
    if b.credentialRefId.Some? { FaultMeaning(r, b.environmentId, b.credentialRefId.value, Read); }
  }

  lemma SoundBindingsAreQuiet(r: Snapshot)
    requires Distinct(IdsOf(r, CredentialRefs)) && SoundBindings(r)
    ensures forall x :: !BindingRaises(r, x)
  {
    assert Distinct(BindingNames(r));
    NoEarlierMeansDistinct(BindingNames(r));
    forall i: nat, fault | fault != NoFault
      ensures !BindingFaulty(r, i, fault)
    {
      if i < |r.sourceBindings| && r.sourceBindings[i].credentialRefId.Some? {
        var b := r.sourceBindings[i];
        assert b in r.sourceBindings;
        FaultMeaning(r, b.environmentId, b.credentialRefId.value, Read);
      }
    }
  }

  lemma PoliciesRaise(r: Snapshot)
    requires Distinct(IdsOf(r, CredentialRefs))
    ensures (forall x :: !PolicyRaises(r, x)) <==> SoundPolicies(r)
  {
    if forall x :: !PolicyRaises(r, x) { QuietPoliciesAreSound(r); }
    if SoundPolicies(r) { SoundPoliciesAreQuiet(r); }
  }

  lemma QuietPoliciesAreSound(r: Snapshot)
    requires Distinct(IdsOf(r, CredentialRefs)) && forall x :: !PolicyRaises(r, x)
    ensures SoundPolicies(r)
  {
    forall i: nat ensures !Earlier(PolicyEnvironments(r), i) { assert !PolicyRaises(r, SecondPolicy(i)); }
    NoEarlierMeansDistinct(PolicyEnvironments(r));
    forall p | p in r.actionPolicies
      ensures KnowsEnvironment(r, p.environmentId)
      ensures forall refId :: refId in p.writeCredentialRefIds ==> HasRef(r, p.environmentId, refId, Write)
    {
      var i: nat :| i < |r.actionPolicies| && r.actionPolicies[i] == p;
      assert !PolicyRaises(r, PolicyOfUnknownEnvironment(i));
      forall k: nat | k < |p.writeCredentialRefIds|
        ensures HasRef(r, p.environmentId, p.writeCredentialRefIds[k], Write)
      {
        QuietPolicyRefIsSound(r, i, k);
      }
    }
    assert forall i, j :: 0 <= i < j < |r.actionPolicies| ==> PolicyEnvironments(r)[i] != PolicyEnvironments(r)[j];
  }

  lemma QuietPolicyRefIsSound(r: Snapshot, i: nat, k: nat)
    requires Distinct(IdsOf(r, CredentialRefs)) && forall x :: !PolicyRaises(r, x)
    requires i < |r.actionPolicies| && k < |r.actionPolicies[i].writeCredentialRefIds|
    ensures var p := r.actionPolicies[i]; HasRef(r, p.environmentId, p.writeCredentialRefIds[k], Write)
  {
    var p := r.actionPolicies[i];
    assert !PolicyRaises(r, PolicyToUnknownRef(i, k)) && !PolicyRaises(r, PolicyToForeignRef(i, k));
    assert !PolicyRaises(r, PolicyToReadRef(i, k));
    FaultMeaning(r, p.environmentId, p.writeCredentialRefIds[k], Write);
  }

  lemma SoundPoliciesAreQuiet(r: Snapshot)
    requires Distinct(IdsOf(r, CredentialRefs)) && SoundPolicies(r)
    ensures forall x :: !PolicyRaises(r, x)
  {
    assert Distinct(PolicyEnvironments(r));
    NoEarlierMeansDistinct(PolicyEnvironments(r));
    forall i: nat, k: nat, fault | fault != NoFault
      ensures !PolicyFaulty(r, i, k, fault)
    {
      if i < |r.actionPolicies| && k < |r.actionPolicies[i].writeCredentialRefIds| {
        var p := r.actionPolicies[i];
        assert p in r.actionPolicies && p.writeCredentialRefIds[k] in p.writeCredentialRefIds;
        FaultMeaning(r, p.environmentId, p.writeCredentialRefIds[k], Write);
      }
    }
  }

  /** The loops report nothing exactly when the registry means something: both directions, for every registry. */
  lemma NoIssueMeansSound(r: Snapshot)
    ensures (forall x :: !Raises(r, x)) <==> Sound(r)
  {
    IdsRaise(r);
    ServicesRaise(r);
    EnvironmentsRaise(r);
    RefsRaise(r);
    if SoundIds(r) {
      BindingsRaise(r);
      PoliciesRaise(r);
    }
    assert forall x :: ServiceRaises(r, x) ==> Raises(r, x);
    assert forall x :: EnvironmentRaises(r, x) ==> Raises(r, x);
    assert forall x :: RefRaises(r, x) ==> Raises(r, x);
    assert forall x :: BindingRaises(r, x) ==> Raises(r, x);
    assert forall x :: PolicyRaises(r, x) ==> Raises(r, x);
  }

  /**
    In an accepted registry the credential a source binding reads with and every credential a policy of the same
    environment writes with are different, and name different secrets.
   */
  lemma ReadersAndWritersShareNoSecret(r: Snapshot, b: SourceBinding, p: ActionPolicy, c: CredentialRef,
                                       d: CredentialRef)
    requires Sound(r) && b in r.sourceBindings && p in r.actionPolicies && b.environmentId == p.environmentId
    requires c in r.credentialRefs && b.credentialRefId == Some(c.id)
    requires d in r.credentialRefs && d.id in p.writeCredentialRefIds
    ensures c.secretName != d.secretName && c.id != d.id
    ensures c.environmentId == d.environmentId == p.environmentId
  {
    FaultMeaning(r, b.environmentId, c.id, Read);
    FaultMeaning(r, p.environmentId, d.id, Write);
    assert Ids(RefId, r.credentialRefs) == IdsOf(r, CredentialRefs);
    LookupIsMembership(RefId, r.credentialRefs, c);
    LookupIsMembership(RefId, r.credentialRefs, d);
  }

  // ---- The primary scope ------------------------------------------------------------------------------------------

  datatype Scope = Scope(serviceId: string, environmentId: string)
  datatype ScopeFault = NoSuchService | NoSuchEnvironment | EnvironmentOfAnotherService

  function FirstWith<T>(test: T -> bool, items: seq<T>): (found: Option<T>)
    ensures found.Some? ==> found.value in items && test(found.value)
    ensures found.None? ==> forall x :: x in items ==> !test(x)
  {
    if items == [] then None
    else if test(items[0]) then Some(items[0])
    else FirstWith(test, items[1..])
  }

  /** checkPrimaryScope. */
  function CheckPrimaryScope(r: Snapshot, scope: Scope): Result<Environment, ScopeFault> {
    match FirstWith((s: Service) => s.id == scope.serviceId, r.services)
    case None => Err(NoSuchService)
    case Some(service) =>
      match FirstWith((e: Environment) => e.id == scope.environmentId, r.environments)
      case None => Err(NoSuchEnvironment)
      case Some(environment) =>
        if environment.serviceId != service.id then Err(EnvironmentOfAnotherService) else Ok(environment)
  }

  lemma SameIdSameEnvironment(r: Snapshot, e: Environment, f: Environment)
    requires SoundIds(r) && e in r.environments && f in r.environments && e.id == f.id
    ensures e == f
  {
    var i :| 0 <= i < |r.environments| && r.environments[i] == e;
    var j :| 0 <= j < |r.environments| && r.environments[j] == f;
    assert IdsOf(r, Environments)[i] == IdsOf(r, Environments)[j];
  }

  /** In an accepted registry it accepts exactly the pairs the registry links, and each refusal means what it says. */
  lemma ScopeIsLinked(r: Snapshot, scope: Scope)
    requires Sound(r)
    ensures forall e :: CheckPrimaryScope(r, scope) == Ok(e) <==>
              e in r.environments && e.id == scope.environmentId && e.serviceId == scope.serviceId
    ensures CheckPrimaryScope(r, scope) == Err(NoSuchService) <==> !KnowsService(r, scope.serviceId)
    ensures CheckPrimaryScope(r, scope) == Err(NoSuchEnvironment)
            <==> KnowsService(r, scope.serviceId) && !KnowsEnvironment(r, scope.environmentId)
  {
    forall e, f | e in r.environments && f in r.environments && e.id == f.id
      ensures e == f
    {
      SameIdSameEnvironment(r, e, f);
    }
  }
}
