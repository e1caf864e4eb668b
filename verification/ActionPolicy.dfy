/**
 Tier classification of external actions (supervisor/internal/actionbroker/policy.go).

 The floor and the deploy-time table are values; `PolicyTable` is the process-wide table that
 `RegisterTestPolicyEntry` and the cleanup it returns change in place.
 */
module ActionPolicy {
  import opened Common

  datatype Tier = Auto | Notify | Approve | HumanOnly

  datatype TierReason = PermanentFloor | DeployPolicy | Unclassified

  type Policy = map<string, Tier>

  const FLOOR: set<string> := {"github_issue_comment"}

  const DEPLOY_POLICY: Policy := map["github_issue_comment" := Approve]

  /** Floor first, then the table, then the safe default. */
  function Classify(policy: Policy, actionType: string): (Tier, TierReason) {
    if actionType in FLOOR then (Approve, PermanentFloor)
    else if actionType in policy then (policy[actionType], DeployPolicy)
    else (Approve, Unclassified)
  }

  /** The state a cleanup function closes over. */
  datatype Undo = Undo(actionType: string, original: Option<Tier>)

  function Registered(policy: Policy, actionType: string, tier: Tier): (Policy, Undo) {
    (policy[actionType := tier], Undo(actionType, Lookup(policy, actionType)))
  }

  function Cleaned(policy: Policy, undo: Undo): Policy {
    match undo.original
    case Some(tier) => policy[undo.actionType := tier]
    case None => policy - {undo.actionType}
  }

  class PolicyTable {
    var policy: Policy

    constructor ()
      ensures policy == DEPLOY_POLICY
    {
      policy := DEPLOY_POLICY;
    }

    method RegisterTestPolicyEntry(actionType: string, tier: Tier) returns (undo: Undo)
      modifies this
      ensures (policy, undo) == Registered(old(policy), actionType, tier)
    {
      undo := Undo(actionType, if actionType in policy then Some(policy[actionType]) else None);
      policy := policy[actionType := tier];
    }

    method RunCleanup(undo: Undo)
      modifies this
      ensures policy == Cleaned(old(policy), undo)
    {
      match undo.original {
        case Some(tier) => policy := policy[undo.actionType := tier];
        case None => policy := policy - {undo.actionType};
      }
    }
  }

  // ---------------------------------------------------------------- nested registrations

  /** A test that registers an entry, runs other such tests inside, and defers the cleanup. */
  datatype Scope = Scope(actionType: string, tier: Tier, inner: seq<Scope>)

  function RunScope(policy: Policy, scope: Scope): Policy
    decreases scope
  {
    var (policy', undo) := Registered(policy, scope.actionType, scope.tier);
    Cleaned(RunScopes(policy', scope.inner), undo)
  }

  function RunScopes(policy: Policy, scopes: seq<Scope>): Policy
    decreases scopes
  {
    if scopes == [] then policy else RunScopes(RunScope(policy, scopes[0]), scopes[1..])
  }

  lemma CleanupUndoesRegister(policy: Policy, actionType: string, tier: Tier)
    ensures var (policy', undo) := Registered(policy, actionType, tier); Cleaned(policy', undo) == policy
  {
    if actionType in policy {
      assert policy[actionType := tier][actionType := policy[actionType]] == policy;
    } else {
      assert policy[actionType := tier] - {actionType} == policy;
    }
  }

  lemma {:induction false} ScopeRestores(policy: Policy, scope: Scope)
    ensures RunScope(policy, scope) == policy
    decreases scope
  {
    var (policy', undo) := Registered(policy, scope.actionType, scope.tier);
    NestedScopesRestore(policy', scope.inner);
    CleanupUndoesRegister(policy, scope.actionType, scope.tier);
  }

  /** Properly nested registrations, however deep, leave every table as it was. */
  lemma {:induction false} NestedScopesRestore(policy: Policy, scopes: seq<Scope>)
    ensures RunScopes(policy, scopes) == policy
    decreases scopes
  {
    if scopes != [] {
      ScopeRestores(policy, scopes[0]);
      NestedScopesRestore(policy, scopes[1..]);
    }
  }

  /**
   Two registrations whose cleanups run in the order they were made instead: the table comes back
   unless both named the same type and the first one changed it.
   */
  lemma OverlapRestoresIff(policy: Policy, a: string, tierA: Tier, b: string, tierB: Tier)
    ensures var (p1, undoA) := Registered(policy, a, tierA);
            var (p2, undoB) := Registered(p1, b, tierB);
            Cleaned(Cleaned(p2, undoA), undoB) == policy
            <==> (a != b || Lookup(policy, a) == Some(tierA))
  {
    var (p1, undoA) := Registered(policy, a, tierA);
    var (p2, undoB) := Registered(p1, b, tierB);
    var p3 := Cleaned(p2, undoA);
    var p4 := Cleaned(p3, undoB);
    if a == b {
      assert p4[a] == tierA;
      if Lookup(policy, a) == Some(tierA) {
        assert p4 == policy;
      }
    } else {
      assert forall k :: Lookup(p4, k) == Lookup(policy, k);
      assert forall k :: k in p4 <==> Lookup(p4, k).Some?;
      assert forall k :: k in policy <==> Lookup(policy, k).Some?;
      assert p4.Keys == policy.Keys;
      forall k | k in policy
        ensures p4[k] == policy[k]
      {
        assert Lookup(p4, k) == Lookup(policy, k);
      }
      assert p4 == policy;
    }
  }
}
