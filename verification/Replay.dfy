/**
 * The replay ledger and the replay policies. An executor is given as what it would do if it ran: it returns
 * a result or it throws, and it does not call the ledger.
 */
module Replay {
  import opened Canonical

  datatype Attempt<R> = Returns(result: R) | Throws

  datatype Identity = Identity(key: string, subject: string, digest: string)

  datatype Record<R> = Record(subject: string, digest: string, result: R)

  datatype Conflict = SubjectConflict | PayloadConflict | ReplayRefused

  datatype Outcome<R> = Executed(result: R) | Replayed(result: R) | Conflicted(conflict: Conflict) | Threw

  datatype Policy = Unbound | SafeRepeat | ClaimRequired | RejectReplay

  // ----- the identity of a request

  datatype Derived = Derived(identity: Identity) | EmptyKey | NoPayloadText

  /** The digest of a payload is a hash of its canonical text. Only `undefined` has none. */
  function DeriveReplayIdentity(subject: string, key: string, payload: JS, hash: string -> string): Derived {
    if key == "" then EmptyKey
    else
      match CanonicalJson(payload)
      case None => NoPayloadText
      case Some(text) => Derived(Identity(key, subject, "sha256:" + hash(text)))
  }

  /** An empty key has no identity, and neither has `undefined`; any other payload has one, with the hash of its canonical text. */
  lemma IdentityIs(subject: string, key: string, payload: JS, hash: string -> string)
    ensures var d, text := DeriveReplayIdentity(subject, key, payload, hash), CanonicalJson(payload);
            && (d.EmptyKey? <==> key == "") && (d.NoPayloadText? <==> key != "" && payload.Undefined?)
            && (d.Derived? ==> text.Some? && d.identity == Identity(key, subject, "sha256:" + hash(text.value)))
  {
  }

  // ----- one claim

  function ClaimOutcome<R>(store: map<string, Record<R>>, id: Identity, attempt: Attempt<R>): Outcome<R> {
    if id.key !in store then
      match attempt case Returns(r) => Executed(r) case Throws => Threw
    else if store[id.key].subject != id.subject then Conflicted(SubjectConflict)
    else if store[id.key].digest != id.digest then Conflicted(PayloadConflict)
    else Replayed(store[id.key].result)
  }

  function PolicyOutcome<R>(store: map<string, Record<R>>, policy: Policy, id: Identity, attempt: Attempt<R>): Outcome<R> {
    match policy
    case Unbound => (match attempt case Returns(r) => Executed(r) case Throws => Threw)
    case SafeRepeat => (match attempt case Returns(r) => Executed(r) case Throws => Threw)
    case RejectReplay => if id.key in store then Conflicted(ReplayRefused) else ClaimOutcome(store, id, attempt)
    case ClaimRequired => ClaimOutcome(store, id, attempt)
  }

  /** A policy that binds a request to its key. */
  predicate Bound(policy: Policy) {
    policy.ClaimRequired? || policy.RejectReplay?
  }

  /** The claims after a call: a bound call that executed adds its own, and no other call changes any. */
  function After<R>(store: map<string, Record<R>>, policy: Policy, id: Identity, attempt: Attempt<R>): map<string, Record<R>> {
    if Bound(policy) && id.key !in store && attempt.Returns? then store[id.key := Record(id.subject, id.digest, attempt.result)]
    else store
  }

  class ReplayLedger<R> {
    var store: map<string, Record<R>>
    /** The executors that ran, in order. */
    ghost var runs: seq<Identity>

    constructor ()
      ensures store == map[] && runs == []
    {
      store := map[];
      runs := [];
    }

    /** Runs the executor that the caller passed. */
    method Execute(id: Identity, attempt: Attempt<R>) returns (ran: Attempt<R>)
      modifies this`runs
      ensures ran == attempt && runs == old(runs) + [id]
    {
      runs := runs + [id];
      ran := attempt;
    }

    method Claim(id: Identity, attempt: Attempt<R>) returns (outcome: Outcome<R>)
      modifies this
      ensures outcome == ClaimOutcome(old(store), id, attempt)
      ensures store == After(old(store), ClaimRequired, id, attempt)
      ensures runs == old(runs) + if outcome.Executed? || outcome.Threw? then [id] else []
    {
      if id.key !in store {
        var ran := Execute(id, attempt);
        if ran.Throws? { return Threw; }
        store := store[id.key := Record(id.subject, id.digest, ran.result)];
        return Executed(ran.result);
      }
      var existing := store[id.key];
      if existing.subject != id.subject { return Conflicted(SubjectConflict); }
      if existing.digest != id.digest { return Conflicted(PayloadConflict); }
      return Replayed(existing.result);
    }

    predicate Has(key: string)
      reads this
    {
      key in store
    }

    /** `applyReplayPolicy`: the executor runs exactly when the outcome is that of a run. */
    method ApplyReplayPolicy(policy: Policy, id: Identity, attempt: Attempt<R>) returns (outcome: Outcome<R>)
      modifies this
      ensures outcome == PolicyOutcome(old(store), policy, id, attempt)
      ensures store == After(old(store), policy, id, attempt)
      ensures runs == old(runs) + if outcome.Executed? || outcome.Threw? then [id] else []
    {
      if policy.Unbound? || policy.SafeRepeat? {
        var ran := Execute(id, attempt);
        return match ran case Returns(r) => Executed(r) case Throws => Threw;
      }
      if policy.RejectReplay? {
        if Has(id.key) { return Conflicted(ReplayRefused); }
        outcome := Claim(id, attempt);
        return;
      }
      outcome := Claim(id, attempt);
    }
  }

  // ----- whole runs of one ledger

  datatype Call<R> = Call(policy: Policy, id: Identity, attempt: Attempt<R>)

  /** The claims after a list of calls on an empty ledger. */
  function Store<R>(calls: seq<Call<R>>): map<string, Record<R>> {
    if calls == [] then map[]
    else
      var last := calls[|calls| - 1];
      After(Store(calls[..|calls| - 1]), last.policy, last.id, last.attempt)
  }

  /** The outcome of one call of a list. */
  function OutcomeAt<R>(calls: seq<Call<R>>, i: nat): Outcome<R>
    requires i < |calls|
  {
    PolicyOutcome(Store(calls[..i]), calls[i].policy, calls[i].id, calls[i].attempt)
  }

  /** A ledger object runs a list of calls as the functions say. */
  method RunCalls<R>(calls: seq<Call<R>>) returns (outcomes: seq<Outcome<R>>)
    ensures |outcomes| == |calls| && forall i :: 0 <= i < |calls| ==> outcomes[i] == OutcomeAt(calls, i)
  {
    var ledger := new ReplayLedger<R>();
    outcomes := [];
    for i := 0 to |calls|
      invariant |outcomes| == i && ledger.store == Store(calls[..i])
      invariant forall k :: 0 <= k < i ==> outcomes[k] == OutcomeAt(calls, k)
    {
      var outcome := ledger.ApplyReplayPolicy(calls[i].policy, calls[i].id, calls[i].attempt);
      assert calls[..i + 1][..i] == calls[..i];
      outcomes := outcomes + [outcome];
    }
  }

  predicate CompletesAt<R>(calls: seq<Call<R>>, i: nat) {
    i < |calls| && Bound(calls[i].policy) && OutcomeAt(calls, i).Executed?
  }

  /** A claim is the mark of the one call that completed for its key, and it never changes. */
  lemma {:induction false} ClaimHasItsCall<R>(calls: seq<Call<R>>, key: string) returns (i: nat)
    requires key in Store(calls)
    ensures CompletesAt(calls, i) && calls[i].id.key == key
    ensures calls[i].attempt.Returns? && Store(calls)[key] == Record(calls[i].id.subject, calls[i].id.digest, calls[i].attempt.result)
    ensures forall n :: 0 <= n <= |calls| ==> (key in Store(calls[..n]) <==> i < n)
    decreases |calls|
  {
    var m := |calls| - 1;
    var before := calls[..m];
    assert calls[..|calls|] == calls;
    if key in Store(before) {
      i := ClaimHasItsCall(before, key);
      assert before[..i] == calls[..i];
      forall n | 0 <= n <= |calls| ensures key in Store(calls[..n]) <==> i < n {
        if n <= m { assert before[..n] == calls[..n]; }
      }
    } else {
      i := m;
      forall n | 0 <= n <= |calls| ensures key in Store(calls[..n]) <==> i < n {
        if n <= m { ClaimsStay(before, n, key); assert before[..n] == calls[..n]; }
      }
    }
  }

  /** A claim stays. */
  lemma {:induction false} ClaimsStay<R>(calls: seq<Call<R>>, n: nat, key: string)
    requires n <= |calls|
    ensures key in Store(calls[..n]) ==> key in Store(calls) && Store(calls)[key] == Store(calls[..n])[key]
    decreases |calls|
  {
    if n == |calls| {
      assert calls[..n] == calls;
    } else {
      var before := calls[..|calls| - 1];
      ClaimsStay(before, n, key);
      assert before[..n] == calls[..n];
    }
  }

  /** A call that completes claims its key from then on. */
  lemma {:induction false} CompletedIsClaimed<R>(calls: seq<Call<R>>, i: nat, n: nat)
    requires CompletesAt(calls, i) && i < n <= |calls|
    ensures calls[i].id.key in Store(calls[..n])
    ensures calls[i].id.key !in Store(calls[..i])
    ensures calls[i].attempt.Returns? && Store(calls[..n])[calls[i].id.key]
         == Record(calls[i].id.subject, calls[i].id.digest, calls[i].attempt.result)
  {
    var here := calls[..i + 1];
    assert here[..i] == calls[..i];
    ClaimsStay(calls[..n], i + 1, calls[i].id.key);
    assert calls[..n][..i + 1] == here;
  }

  /** For one key, no two bound calls complete, whatever their policies. */
  lemma {:induction false} CompletesOnce<R>(calls: seq<Call<R>>, i: nat, j: nat)
    requires CompletesAt(calls, i) && CompletesAt(calls, j) && calls[i].id.key == calls[j].id.key
    ensures i == j
  {
    if i < j { CompletedIsClaimed(calls, i, j); CompletedIsClaimed(calls, j, |calls|); }
    if j < i { CompletedIsClaimed(calls, j, i); CompletedIsClaimed(calls, i, |calls|); }
  }

  predicate Answers<R>(calls: seq<Call<R>>, i: nat) {
    i < |calls| && Bound(calls[i].policy) && (OutcomeAt(calls, i).Executed? || OutcomeAt(calls, i).Replayed?)
  }

  /** Every answered call of a key has the result, the subject and the digest of the one call that completed. */
  lemma {:induction false} AnswersComeFromOneCall<R>(calls: seq<Call<R>>, j: nat) returns (i: nat)
    requires Answers(calls, j)
    ensures i <= j && CompletesAt(calls, i) && calls[i].id == calls[j].id
    ensures OutcomeAt(calls, j).result == OutcomeAt(calls, i).result
  {
    if OutcomeAt(calls, j).Executed? { return j; }
    var prefix := calls[..j];
    i := ClaimHasItsCall(prefix, calls[j].id.key);
    assert prefix[..j] == prefix;
    assert prefix[..i] == calls[..i];
    CompletedIsClaimed(calls, i, j);
  }

  /** All answered calls of one key give one result. */
  lemma {:induction false} OneResultPerKey<R>(calls: seq<Call<R>>, i: nat, j: nat)
    requires Answers(calls, i) && Answers(calls, j) && calls[i].id.key == calls[j].id.key
    ensures OutcomeAt(calls, i).result == OutcomeAt(calls, j).result && calls[i].id == calls[j].id
  {
    var a := AnswersComeFromOneCall(calls, i);
    var b := AnswersComeFromOneCall(calls, j);
    CompletesOnce(calls, a, b);
  }

  /** After a call that completed, a later call of the key never runs; under reject-replay it is always refused. */
  lemma {:induction false} LaterCallNeverRuns<R>(calls: seq<Call<R>>, i: nat, j: nat)
    requires CompletesAt(calls, i) && i < j < |calls| && calls[j].id.key == calls[i].id.key && Bound(calls[j].policy)
    ensures calls[j].policy.RejectReplay? ==> OutcomeAt(calls, j) == Conflicted(ReplayRefused)
    ensures calls[j].policy.ClaimRequired? ==>
              OutcomeAt(calls, j) ==
                if calls[j].id.subject != calls[i].id.subject then Conflicted(SubjectConflict)
                else if calls[j].id.digest != calls[i].id.digest then Conflicted(PayloadConflict)
                else Replayed(OutcomeAt(calls, i).result)
  {
    CompletedIsClaimed(calls, i, j);
  }

  /** A bound call runs exactly when no bound call of its key completed before it; so a call that throws leaves the key free. */
  lemma {:induction false} RunsIffNoneCompleted<R>(calls: seq<Call<R>>, j: nat)
    requires j < |calls| && Bound(calls[j].policy)
    ensures OutcomeAt(calls, j).Executed? || OutcomeAt(calls, j).Threw?
       <==> forall i :: 0 <= i < j && CompletesAt(calls, i) ==> calls[i].id.key != calls[j].id.key
  {
    var key := calls[j].id.key;
    if key in Store(calls[..j]) {
      var i := ClaimHasItsCall(calls[..j], key);
      assert calls[..j][..j] == calls[..j] && calls[..j][..i] == calls[..i];
      assert CompletesAt(calls, i);
    } else {
      forall i | 0 <= i < j && CompletesAt(calls, i) ensures calls[i].id.key != key {
        CompletedIsClaimed(calls, i, j);
      }
    }
  }

  // ----- retries of one request

  predicate Injective(hash: string -> string, a: string, b: string) {
    hash(a) == hash(b) ==> a == b
  }

  /**
   * A retry under claim-required, after a completed call of its key. With the same subject it is a replay when the
   * payloads differ only in member order, undefined members or what else JSON text does not show; and, for a hash
   * that tells the two texts apart, only then.
   */
  lemma {:induction false} RetryIsReplayIffSamePayload<R>(calls: seq<Call<R>>, i: nat, j: nat,
                                                          a: JS, b: JS, hash: string -> string)
    requires CompletesAt(calls, i) && i < j < |calls| && calls[j].policy.ClaimRequired?
    requires Valid(a) && Valid(b)
    requires DeriveReplayIdentity(calls[i].id.subject, calls[i].id.key, a, hash) == Derived(calls[i].id)
    requires DeriveReplayIdentity(calls[i].id.subject, calls[i].id.key, b, hash) == Derived(calls[j].id)
    ensures Same(a, b) ==> OutcomeAt(calls, j) == Replayed(OutcomeAt(calls, i).result)
    ensures Injective(hash, CanonicalJson(a).GetOr(""), CanonicalJson(b).GetOr("")) && !Same(a, b) ==>
              OutcomeAt(calls, j) == Conflicted(PayloadConflict)
  {
    LaterCallNeverRuns(calls, i, j);
    TextsAgreeIffSame(a, b);
    var x, y := CanonicalJson(a), CanonicalJson(b);
    assert x.Some? && y.Some?;
    if hash(x.value) != hash(y.value) {
      assert ("sha256:" + hash(x.value))[7..] == hash(x.value) && ("sha256:" + hash(y.value))[7..] == hash(y.value);
    }
  }
}
