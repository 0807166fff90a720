/** The hash an approval is bound by, over the canonical text of what it protects. */
module ApprovalHash {
  import opened ProtectedRecord
  import opened CanonicalJson
  import opened GuardedExecution
  import opened GuardedExecutionTheorems

  function PlainOf(value: Value): Plain {
    match value
    case Text(text) => PlainText(text)
    case Number(n) => PlainNumber(n)
  }

  /** The protected dictionary, in the order the program builds it. */
  function ProtectedDict(scope: Scope, arguments: seq<Member>): Plain {
    PlainDict([
      Member("session_id", PlainText(scope.sessionId)),
      Member("target_id", PlainText(scope.targetId)),
      Member("target_address", PlainText(scope.address)),
      Member("proposal_id", PlainText(scope.proposalId)),
      Member("action_name", PlainText(scope.actionName)),
      Member("arguments", PlainDict(arguments))])
  }

  /** A dictionary with these arguments, in whatever order they were inserted. */
  ghost predicate Lists(members: seq<Member>, arguments: Arguments) {
    && KeysDistinct(members)
    && (forall m <- members :: m.key in arguments && m.value == PlainOf(arguments[m.key]))
    && (forall k <- arguments :: Member(k, PlainOf(arguments[k])) in members)
  }

  lemma ListsOneMore(arguments: Arguments, k: string, rest: seq<Member>)
    requires k in arguments && Lists(rest, arguments - {k})
    ensures Lists([Member(k, PlainOf(arguments[k]))] + rest, arguments)
  {
    var members := [Member(k, PlainOf(arguments[k]))] + rest;
    assert forall m <- rest :: m.key != k;
    forall l <- arguments ensures Member(l, PlainOf(arguments[l])) in members {
      if l == k {
        assert members[0] in members;
      } else {
        assert l in arguments - {k};
        assert Member(l, PlainOf(arguments[l])) in rest;
      }
    }
  }

  lemma {:induction false} CanBeListed(arguments: Arguments) returns (members: seq<Member>)
    ensures Lists(members, arguments)
    decreases |arguments|
  {
    if arguments == map[] {
      members := [];
    } else {
      var k :| k in arguments;
      var rest := CanBeListed(arguments - {k});
      ListsOneMore(arguments, k, rest);
      members := [Member(k, PlainOf(arguments[k]))] + rest;
    }
  }

  lemma ListingExists(arguments: Arguments)
    ensures exists members :: Lists(members, arguments)
  {
    var members := CanBeListed(arguments);
  }

  ghost function Listing(arguments: Arguments): (members: seq<Member>)
    ensures Lists(members, arguments)
  {
    ListingExists(arguments);
    var members :| Lists(members, arguments);
    members
  }

  ghost function ProtectedText(scope: Scope): string {
    Dumps(ProtectedDict(scope, Listing(scope.arguments)))
  }

  ghost function ProtectedHash(scope: Scope): Digest {
    Sha256(ProtectedText(scope))
  }

  lemma ProtectedIsWellFormed(scope: Scope, members: seq<Member>)
    requires Lists(members, scope.arguments)
    ensures WellFormed(ProtectedDict(scope, members))
  {
  }

  function ArgumentTrees(arguments: Arguments): map<string, Tree> {
    map k | k in arguments :: TreeOf(PlainOf(arguments[k]))
  }

  /** The tree of listed arguments holds exactly the arguments. */
  lemma ListedTree(members: seq<Member>, arguments: Arguments)
    requires Lists(members, arguments)
    ensures TreesOf(members) == ArgumentTrees(arguments)
  {
    TreesOfAre(members);
    forall k ensures k in TreesOf(members) <==> k in arguments {
      if k in arguments {
        assert Member(k, PlainOf(arguments[k])) in members;
      }
    }
    forall k <- arguments ensures TreesOf(members)[k] == TreeOf(PlainOf(arguments[k])) {
      assert Member(k, PlainOf(arguments[k])) in members;
    }
  }

  lemma ValueTreesDiffer(v: Value, w: Value)
    requires TreeOf(PlainOf(v)) == TreeOf(PlainOf(w))
    ensures v == w
  {
  }

  lemma ArgumentTreesDiffer(a: Arguments, b: Arguments)
    requires ArgumentTrees(a) == ArgumentTrees(b)
    ensures a == b
  {
    assert a.Keys == ArgumentTrees(a).Keys && b.Keys == ArgumentTrees(b).Keys;
    forall k <- a ensures a[k] == b[k] {
      assert ArgumentTrees(a)[k] == ArgumentTrees(b)[k];
      ValueTreesDiffer(a[k], b[k]);
    }
  }

  predicate SameButArguments(a: Scope, b: Scope) {
    && a.sessionId == b.sessionId && a.targetId == b.targetId && a.address == b.address
    && a.proposalId == b.proposalId && a.actionName == b.actionName
  }

  lemma SameFields(a: Scope, b: Scope, first: seq<Member>, second: seq<Member>)
    ensures var v, w := ProtectedDict(a, first).items, ProtectedDict(b, second).items;
      (forall i | 0 <= i < 6 :: TreeOf(v[i].value) == TreeOf(w[i].value)) <==>
        SameButArguments(a, b) && TreesOf(first) == TreesOf(second)
  {
    var v, w := ProtectedDict(a, first).items, ProtectedDict(b, second).items;
    assert forall t, u :: TreeOf(PlainText(t)) == TreeOf(PlainText(u)) ==> t == u;
    assert TreeOf(v[5].value) == DictTree(TreesOf(first)) && TreeOf(w[5].value) == DictTree(TreesOf(second));
    if forall i | 0 <= i < 6 :: TreeOf(v[i].value) == TreeOf(w[i].value) {
      assert TreeOf(v[0].value) == TreeOf(w[0].value) && TreeOf(v[1].value) == TreeOf(w[1].value);
      assert TreeOf(v[2].value) == TreeOf(w[2].value) && TreeOf(v[3].value) == TreeOf(w[3].value);
      assert TreeOf(v[4].value) == TreeOf(w[4].value) && TreeOf(v[5].value) == TreeOf(w[5].value);
    }
  }

  lemma SameProtectedTrees(a: Scope, b: Scope, first: seq<Member>, second: seq<Member>)
    requires WellFormed(ProtectedDict(a, first)) && WellFormed(ProtectedDict(b, second))
    ensures TreeOf(ProtectedDict(a, first)) == TreeOf(ProtectedDict(b, second))
      <==> SameButArguments(a, b) && TreesOf(first) == TreesOf(second)
  {
    var v, w := ProtectedDict(a, first), ProtectedDict(b, second);
    SameFields(a, b, first, second);
    SameKeysSameTrees(v.items, w.items);
  }

  lemma SameArguments(first: seq<Member>, second: seq<Member>, a: Arguments, b: Arguments)
    requires Lists(first, a) && Lists(second, b)
    ensures TreesOf(first) == TreesOf(second) <==> a == b
  {
    ListedTree(first, a);
    ListedTree(second, b);
    if ArgumentTrees(a) == ArgumentTrees(b) {
      ArgumentTreesDiffer(a, b);
    }
  }

  /** Two scopes give one text exactly when they are equal, in whatever order the arguments were
      inserted on either side. */
  lemma ProtectedTextIsInjective(a: Scope, b: Scope, first: seq<Member>, second: seq<Member>)
    requires Lists(first, a.arguments) && Lists(second, b.arguments)
    ensures Dumps(ProtectedDict(a, first)) == Dumps(ProtectedDict(b, second)) <==> a == b
  {
    ProtectedIsWellFormed(a, first);
    ProtectedIsWellFormed(b, second);
    CanonicalTextIsInjective(ProtectedDict(a, first), ProtectedDict(b, second));
    SameProtectedTrees(a, b, first, second);
    SameArguments(first, second, a.arguments, b.arguments);
  }

  /** So the hash of a scope is the hash of any dictionary that the program builds for it, and two
      scopes share a hash only if they are equal. */
  lemma ProtectedHashBinds(scope: Scope, members: seq<Member>)
    requires Lists(members, scope.arguments)
    ensures ProtectedHash(scope) == Sha256(Dumps(ProtectedDict(scope, members)))
    ensures CollisionFree(ProtectedHash)
  {
    ProtectedTextIsInjective(scope, scope, Listing(scope.arguments), members);
    forall a, b | ProtectedHash(a) == ProtectedHash(b) ensures a == b {
      ProtectedTextIsInjective(a, b, Listing(a.arguments), Listing(b.arguments));
    }
  }

  /** With this hash, what is dispatched is what was approved, field by field, over every run. */
  lemma DispatchMatchesApprovedText(rules: Rules, s: State, moves: seq<Move>)
    requires forall scope :: rules.hash(scope) == ProtectedHash(scope)
    requires Initial(s) && Runs(rules, s, moves)
    ensures var t := Exec(rules, s, moves);
      forall d <- t.dispatches :: d.approvalId in t.decided
        && var approved := t.decided[d.approvalId].scope;
           && d.sessionId == approved.sessionId && d.targetId == approved.targetId
           && rules.canonical(d.address) == approved.address && d.proposalId == approved.proposalId
           && d.actionName == approved.actionName && Matches(d.arguments, approved.arguments)
  {
    var members := Listing(map[]);
    ProtectedHashBinds(Scope("", "", "", "", "", map[]), members);
    forall a, b | rules.hash(a) == rules.hash(b) ensures a == b {
      assert ProtectedHash(a) == ProtectedHash(b);
    }
    DispatchIsWhatWasApproved(rules, s, moves);
  }
}
