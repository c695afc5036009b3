/** What a disclosed key is worth, and what deploying a fresh one repairs
    (docs/runbooks/rotate-request-state-key.md, "In an actual compromise"). */
module Compromise {
  import opened Wire
  import opened Base64
  import opened Audit
  import opened Approval
  import opened KeyRing
  import opened Gates
  import opened Boundary
  import opened Cluster
  import opened ApprovalSafety
  import opened Rotation
  import opened ClusterAudit

  /** A step of the system, or a state sealed outside it by someone who knows the key. */
  datatype Move =
    | Honest(step: Step)
    | Made(token: Token)

  ghost function After(s: System, move: Move): System {
    match move
    case Honest(step) => Apply(s, step)
    case Made(token) => s.(issued := s.issued + [token])
  }

  ghost function RunMoves(s: System, moves: seq<Move>): System {
    if moves == [] then s else After(RunMoves(s, moves[..|moves| - 1]), moves[|moves| - 1])
  }

  /** No one outside knows a trusted key. */
  ghost predicate Secret(trusted: iset<Key>, moves: seq<Move>) {
    forall j :: 0 <= j < |moves| && moves[j].Made? ==> moves[j].token.key !in trusted
  }

  predicate OutUnder(s: System, k: nat, keys: iset<Key>) {
    k < |s.issued| && s.issued[k].key in keys
  }

  // ---------- trusted keys ----------

  /** State `k` stems from a recorded ask at or after exchange `from`. */
  ghost predicate MintedSince(history: seq<Exchange>, from: nat, k: nat, token: Token) {
    exists a :: from <= a < |history| && AskedFor(history[a], k, token)
  }

  /** Every state under a trusted key stems from an ask since `from`. */
  ghost predicate Vouched(s: System, from: nat, trusted: iset<Key>) {
    && from <= |s.history|
    && (forall k: nat :: OutUnder(s, k, trusted) ==> MintedSince(s.history, from, k, s.issued[k]))
    && (forall j :: from <= j < |s.history| ==> s.history[j].time <= s.clock)
  }

  lemma MintedSinceGrows(history: seq<Exchange>, x: Exchange, from: nat, k: nat, token: Token)
    requires MintedSince(history, from, k, token)
    ensures MintedSince(history + [x], from, k, token)
  {
    var a :| from <= a < |history| && AskedFor(history[a], k, token);
    assert (history + [x])[a] == history[a];
  }

  lemma ServedIsVouched(s: System, from: nat, trusted: iset<Key>, i: nat, req: ClientRequest, nonce: string, k: nat)
    requires Vouched(s, from, trusted) && i < |s.replicas| && OutUnder(Served(s, i, req, nonce), k, trusted)
    ensures var after := Served(s, i, req, nonce); MintedSince(after.history, from, k, after.issued[k])
  {
    var after := Served(s, i, req, nonce);
    ServedAppends(s, i, req, nonce);
    if Last(after).response.Asked? {
      AskMints(s, i, req, nonce);
    }
    if k < |s.issued| {
      assert after.issued[k] == s.issued[k] by {
        assert after.issued[..|s.issued|] == s.issued;
      }
      assert OutUnder(s, k, trusted);
      MintedSinceGrows(s.history, Last(after), from, k, s.issued[k]);
    } else {
      assert AskedFor(after.history[|s.history|], k, after.issued[k]);
    }
  }

  lemma ServedKeepsVouched(s: System, from: nat, trusted: iset<Key>, i: nat, req: ClientRequest, nonce: string)
    requires Vouched(s, from, trusted) && i < |s.replicas|
    ensures Vouched(Served(s, i, req, nonce), from, trusted)
  {
    var after := Served(s, i, req, nonce);
    ServedAppends(s, i, req, nonce);
    forall k: nat | OutUnder(after, k, trusted) ensures MintedSince(after.history, from, k, after.issued[k]) {
      ServedIsVouched(s, from, trusted, i, req, nonce, k);
    }
  }

  lemma StepKeepsVouched(s: System, from: nat, trusted: iset<Key>, step: Step)
    requires Vouched(s, from, trusted)
    ensures Vouched(Apply(s, step), from, trusted)
  {
    var after := Apply(s, step);
    match step
    case Serve(i, req, nonce) =>
      if i < |s.replicas| {
        ServedKeepsVouched(s, from, trusted, i, req, nonce);
      }
    case _ =>
      forall k: nat | OutUnder(after, k, trusted) ensures MintedSince(after.history, from, k, after.issued[k]) {
        assert OutUnder(s, k, trusted);
      }
  }

  lemma MakingKeepsVouched(s: System, from: nat, trusted: iset<Key>, token: Token)
    requires Vouched(s, from, trusted) && token.key !in trusted
    ensures Vouched(After(s, Made(token)), from, trusted)
  {
    var after := After(s, Made(token));
    forall k: nat | OutUnder(after, k, trusted) ensures MintedSince(after.history, from, k, after.issued[k]) {
      assert OutUnder(s, k, trusted);
    }
  }

  lemma {:induction false} MovesKeepVouched(s: System, from: nat, trusted: iset<Key>, moves: seq<Move>)
    requires Vouched(s, from, trusted) && Secret(trusted, moves)
    ensures Vouched(RunMoves(s, moves), from, trusted)
  {
    if moves != [] {
      var before := RunMoves(s, moves[..|moves| - 1]);
      MovesKeepVouched(s, from, trusted, moves[..|moves| - 1]);
      match moves[|moves| - 1]
      case Honest(step) => StepKeepsVouched(before, from, trusted, step);
      case Made(token) => MakingKeepsVouched(before, from, trusted, token);
    }
  }

  /** The gated run `x` was authorized, consented to, and asked for since `from`. */
  ghost predicate ApprovedSince(history: seq<Exchange>, from: nat, x: Exchange) {
    && ToolDecision(x.gate, x.request.Plain()).allowed
    && ExplicitConsent(x.request.Plain().Answers())
    && exists a :: from <= a < |history| && Approves(history[a], x)
  }

  lemma TrustedRunIsApproved(s: System, from: nat, trusted: iset<Key>, i: nat, req: ClientRequest, nonce: string)
    requires Vouched(s, from, trusted) && i < |s.replicas| && RanGated(Last(Served(s, i, req, nonce)))
    requires forall key :: key in s.replicas[i].Ring() ==> key in trusted
    ensures ApprovedSince(s.history, from, Last(Served(s, i, req, nonce)))
  {
    ServedAppends(s, i, req, nonce);
    GatedRunPresents(s, i, req, nonce);
    var k := req.presented.index;
    assert OutUnder(s, k, trusted);
    var a :| from <= a < |s.history| && AskedFor(s.history[a], k, s.issued[k]);
    assert Approves(s.history[a], Last(Served(s, i, req, nonce)));
  }

  /** Approval safety when keys are known outside: whatever states are made under other keys, and
      whatever is served, deployed and restarted, a replica all of whose keys are trusted runs a gated
      call only for an authorized caller, on an explicit yes, and after an ask for that very call within
      the time to live. Trust may begin at any moment at which nothing is out under the trusted keys. */
  lemma {:induction false} SafetyUnderTrustedKeys(s: System, moves: seq<Move>, trusted: iset<Key>, i: nat, req: ClientRequest,
                                                  nonce: string)
    requires Secret(trusted, moves) && forall k: nat :: !OutUnder(s, k, trusted)
    ensures var now := RunMoves(s, moves);
      i < |now.replicas| && (forall key :: key in now.replicas[i].Ring() ==> key in trusted)
      && RanGated(Last(Served(now, i, req, nonce))) ==>
        ApprovedSince(now.history, |s.history|, Last(Served(now, i, req, nonce)))
  {
    var now := RunMoves(s, moves);
    MovesKeepVouched(s, |s.history|, trusted, moves);
    if i < |now.replicas| && (forall key :: key in now.replicas[i].Ring() ==> key in trusted)
       && RanGated(Last(Served(now, i, req, nonce)))
    {
      TrustedRunIsApproved(now, |s.history|, trusted, i, req, nonce);
    }
  }

  // ---------- a made state ----------

  /** A state made for a call under some key, as the server itself would seal it. */
  function MadeFor(call: ClientRequest, key: Key, audience: Option<string>, expires: real, suffix: string): Token {
    Token(key, call.operation, call.Name(), call.Arguments(), call.caller.binding, audience, expires,
          NewPendingState(call.Plain().ToolName(), suffix))
  }

  /** The call with the made state attached, after it was added as the last one out. */
  function Carrying(s: System, call: ClientRequest): ClientRequest {
    call.(presented := Replay(|s.issued|))
  }

  lemma MadeStateAdmittedIff(s: System, i: nat, call: ClientRequest, key: Key, expires: real, suffix: string)
    requires i < |s.replicas| && s.clock < expires
    ensures var r := s.replicas[i];
      var token := MadeFor(call, key, r.audience, expires, suffix);
      var made := After(s, Made(token));
      Admit(r.Ring(), r.audience, made.issued, made.clock, Carrying(s, call))
      == if key in r.Ring() then Some(Inner(Carrying(s, call), Some(token.state))) else None
  {
    var token := MadeFor(call, key, s.replicas[i].audience, expires, suffix);
    assert BoundTo(token, Carrying(s, call), s.replicas[i].audience);
  }

  lemma MadeStateForwards(gate: Gate, req: ClientRequest, suffix: string, nonce: string)
    requires Gated(gate, req.Plain()) && ToolDecision(gate, req.Plain()).allowed && ExplicitConsent(req.Plain().Answers())
    ensures RuleOn(gate, Inner(req, Some(NewPendingState(req.Plain().ToolName(), suffix))), nonce).verdict.Forward?
  {
    var state := NewPendingState(req.Plain().ToolName(), suffix);
    InnerReadsTheCall(req, Some(state));
    AnyToolsStateForwards(gate, Inner(req, Some(state)), req.Plain().ToolName(), suffix, nonce);
  }

  /** Why a disclosed key matters: the server tells a made state from its own by the key alone. A gated
      call of an authorized caller, with an explicit yes and a state made for it, runs exactly on the
      replicas that hold the key, whether or not anyone was asked. */
  lemma {:induction false} MadeStateRunsIff(s: System, i: nat, call: ClientRequest, key: Key, expires: real, suffix: string,
                                            nonce: string)
    requires i < |s.replicas| && s.clock < expires
    requires Gated(s.replicas[i].gate, call.Plain()) && ToolDecision(s.replicas[i].gate, call.Plain()).allowed
    requires ExplicitConsent(call.Plain().Answers())
    ensures var made := After(s, Made(MadeFor(call, key, s.replicas[i].audience, expires, suffix)));
      Last(Served(made, i, Carrying(s, call), nonce)).response.Ran? <==> key in s.replicas[i].Ring()
  {
    MadeStateAdmittedIff(s, i, call, key, expires, suffix);
    MadeStateForwards(s.replicas[i].gate, Carrying(s, call), suffix, nonce);
  }

  // ---------- deploying a fresh key ----------

  /** The only ring string deployed in these moves is `raw`. */
  predicate DeploysOnly(moves: seq<Move>, raw: string) {
    forall j :: 0 <= j < |moves| && moves[j].Honest? && moves[j].step.Redeploy? ==> moves[j].step.raw == raw
  }

  predicate DeploysTo(moves: seq<Move>, i: nat) {
    exists j :: 0 <= j < |moves| && moves[j].Honest? && moves[j].step.Redeploy? && moves[j].step.replica == i
  }

  lemma MoveFollows(s: System, move: Move)
    ensures Follows(After(s, move), s)
  {
    if move.Honest? {
      StepFollows(s, move.step);
    }
  }

  lemma {:induction false} MovesFollow(s: System, moves: seq<Move>)
    ensures Follows(RunMoves(s, moves), s)
  {
    if moves != [] {
      MovesFollow(s, moves[..|moves| - 1]);
      MoveFollows(RunMoves(s, moves[..|moves| - 1]), moves[|moves| - 1]);
    }
  }

  lemma {:induction false} DeployedHolds(s: System, moves: seq<Move>, raw: string, replacement: Bytes, i: nat)
    requires LoadedKeys(raw) == Success([replacement]) && DeploysOnly(moves, raw) && DeploysTo(moves, i) && i < |s.replicas|
    ensures |RunMoves(s, moves).replicas| == |s.replicas| && RunMoves(s, moves).replicas[i].keys == [replacement]
  {
    var front, last := moves[..|moves| - 1], moves[|moves| - 1];
    MovesFollow(s, front);
    if !(last.Honest? && last.step.Redeploy? && last.step.replica == i) {
      DeployedHolds(s, front, raw, replacement, i);
    }
  }

  /** After a compromise: from whatever system, deploying a fresh key alone, in any order and amid any
      traffic and any states made under other keys, takes effect on each replica it has reached. That
      replica rejects every state under another key: those out before, those issued by the others
      meanwhile, and those made outside. And it runs a gated call only when the call was asked for after
      the deployment began. */
  lemma {:induction false} FreshKeyInvalidatesAll(s: System, moves: seq<Move>, replacement: Bytes, i: nat, req: ClientRequest,
                                                  nonce: string)
    requires |replacement| >= MINIMUM_KEY_BYTES && i < |s.replicas|
    requires DeploysOnly(moves, RingString([replacement])) && DeploysTo(moves, i)
    requires Secret(iset{Configured(replacement)}, moves)
    requires forall k :: 0 <= k < |s.issued| ==> s.issued[k].key != Configured(replacement)
    ensures var now := RunMoves(s, moves);
      && |now.replicas| == |s.replicas| && s.issued <= now.issued
      && (req.presented.Replay? && req.presented.index < |now.issued|
          && now.issued[req.presented.index].key != Configured(replacement) ==>
            Last(Served(now, i, req, nonce)).response.Rejected?)
      && (RanGated(Last(Served(now, i, req, nonce))) ==>
            ApprovedSince(now.history, |s.history|, Last(Served(now, i, req, nonce))))
  {
    var now, trusted := RunMoves(s, moves), iset{Configured(replacement)};
    PlainRing([replacement]);
    DeployedHolds(s, moves, RingString([replacement]), replacement, i);
    MovesFollow(s, moves);
    if req.presented.Replay? && req.presented.index < |now.issued|
       && now.issued[req.presented.index].key != Configured(replacement)
    {
      DroppedKeyRejects(now, i, req, nonce);
    }
    if RanGated(Last(Served(now, i, req, nonce))) {
      SafetyUnderTrustedKeys(s, moves, trusted, i, req, nonce);
    }
  }

  // ---------- the review afterwards ----------

  /** The exchange left an approval record with outcome allow. */
  ghost predicate ApprovalAllowed(x: Exchange) {
    exists r :: r in x.records && r.operation == APPROVAL && r.outcome == ALLOW
  }

  lemma {:induction false} CountFinds(records: seq<AuditRecord>, operation: string, outcome: string)
    ensures Count(records, operation, outcome) > 0
       <==> exists r :: r in records && r.operation == operation && r.outcome == outcome
  {
    if records != [] {
      CountFinds(records[1..], operation, outcome);
      assert records == [records[0]] + records[1..];
    }
  }

  lemma MoveBooks(s: System, move: Move)
    requires AllBooked(s.history)
    ensures AllBooked(After(s, move).history)
  {
    if move.Honest? {
      StepBooks(s, move.step);
    }
  }

  lemma {:induction false} MovesBook(s: System, moves: seq<Move>)
    requires AllBooked(s.history)
    ensures AllBooked(RunMoves(s, moves).history)
  {
    if moves != [] {
      MovesBook(s, moves[..|moves| - 1]);
      MoveBooks(RunMoves(s, moves[..|moves| - 1]), moves[|moves| - 1]);
    }
  }

  /** The review the runbook asks for misses nothing and accuses nothing else: under enforcing gates,
      whatever states were made, an exchange ran a gated tool exactly when it left an approval record
      with outcome allow. */
  lemma {:induction false} ReviewFindsEveryRun(start: System, moves: seq<Move>)
    requires Fresh(start)
    ensures var history := RunMoves(start, moves).history;
      forall j :: 0 <= j < |history| && history[j].gate.enforce ==> (RanGated(history[j]) <==> ApprovalAllowed(history[j]))
  {
    MovesBook(start, moves);
    var history := RunMoves(start, moves).history;
    forall j | 0 <= j < |history| && history[j].gate.enforce ensures RanGated(history[j]) <==> ApprovalAllowed(history[j]) {
      assert Booked(history[j]);
      CountFinds(history[j].records, APPROVAL, ALLOW);
    }
  }
}
