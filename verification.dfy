/** Aggregation of verification records: for a target DID, each trusted user's list of
    `app.bsky.graph.verification` records is scanned, and the user is pushed onto
    `profileVerifiers` once for every record whose `value.subject` is the target. The fetch of each
    user's records is an input (one result per trusted user); users are processed one after another
    in list order. */
module Verification {
  import opened Options
  import opened TrustList

  /** The `value` of a record; `subject` is None when the field is absent. */
  datatype RecordValue = RecordValue(subject: Option<string>)

  /** One entry of a `listRecords` response; `value` is None when the field is absent. */
  datatype VerificationRecord = VerificationRecord(value: Option<RecordValue>)

  /** The decoded body of a `listRecords` response; `records` is None when the field is absent. */
  datatype ListRecordsResponse = ListRecordsResponse(records: Option<seq<VerificationRecord>>)

  /** What fetching and decoding one trusted user's records produced: the response, or the
      error the request or the decoding threw. */
  datatype FetchResult = Fetched(response: ListRecordsResponse) | FetchFailed(error: string)

  /** The per-user result object `{trustedUser, success}` or `{trustedUser, success: false, error}`. */
  datatype Outcome = Outcome(trustedUser: string, success: bool, error: Option<string>)

  /** `record.value && record.value.subject === did`. The target is None when the DID read from
      the profile URI was undefined, which a record without a subject then matches. */
  predicate IsVerificationOf(record: VerificationRecord, did: Option<string>): (b: bool)
    ensures record.value.None? ==> !b
    ensures record.value.Some? ==> (b <==> record.value.value.subject == did)
  {
    record.value.Some? && record.value.value.subject == did
  }

  /** The number of records among the first `n` that name `did`. */
  function MatchesBefore(records: seq<VerificationRecord>, did: Option<string>, n: nat): (count: nat)
    requires n <= |records|
    ensures count <= n
  {
    if n == 0 then 0
    else MatchesBefore(records, did, n - 1) + (if IsVerificationOf(records[n - 1], did) then 1 else 0)
  }

  /** Some of the first `n` records are counted exactly when one of them names `did`. */
  lemma {:induction false} MatchesBeforePositive(records: seq<VerificationRecord>, did: Option<string>, n: nat)
    requires n <= |records|
    ensures MatchesBefore(records, did, n) > 0 <==> exists i :: 0 <= i < n && IsVerificationOf(records[i], did)
  {
    if n > 0 {
      MatchesBeforePositive(records, did, n - 1);
    }
  }

  /** The user whose fetch produced `fetch` has at least one record naming `did`. */
  predicate HasVerified(fetch: FetchResult, did: Option<string>)
  {
    fetch.Fetched? && fetch.response.records.Some? &&
    exists record :: record in fetch.response.records.value && IsVerificationOf(record, did)
  }

  /** How many times one user is pushed onto the verifier list: once per matching record of a
      successful fetch, never for a failed one or a response without `records`. */
  function PushCount(fetch: FetchResult, did: Option<string>): (count: nat)
    ensures fetch.FetchFailed? || fetch.response.records.None? ==> count == 0
    ensures fetch.Fetched? && fetch.response.records.Some? ==> count <= |fetch.response.records.value|
  {
    match fetch
    case FetchFailed(_) => 0
    case Fetched(response) =>
      match response.records
      case None => 0
      case Some(records) => MatchesBefore(records, did, |records|)
  }

  /** A user is pushed at all exactly when their fetch succeeded with a record naming `did`. */
  lemma PushCountPositive(fetch: FetchResult, did: Option<string>)
    ensures PushCount(fetch, did) > 0 <==> HasVerified(fetch, did)
  {
    if fetch.Fetched? && fetch.response.records.Some? {
      var records := fetch.response.records.value;
      MatchesBeforePositive(records, did, |records|);
      assert (exists i :: 0 <= i < |records| && IsVerificationOf(records[i], did)) <==>
             (exists record :: record in records && IsVerificationOf(record, did));
    }
  }

  /** `n` copies of `user`. */
  function Repeat(user: string, n: nat): (r: seq<string>)
  {
    seq(n, _ => user)
  }

  /** One more copy. */
  lemma RepeatSnoc(user: string, n: nat)
    ensures Repeat(user, n + 1) == Repeat(user, n) + [user]
  {
  }

  /** `Repeat(user, n)` holds `user` exactly `n` times and nothing else. */
  lemma {:induction false} RepeatMembers(user: string, n: nat)
    ensures multiset(Repeat(user, n))[user] == n
    ensures forall x :: x in Repeat(user, n) <==> n > 0 && x == user
  {
    if n > 0 {
      RepeatMembers(user, n - 1);
      RepeatSnoc(user, n - 1);
    }
  }

  /** The verifier list after processing the first `n` users with their fetch results, in list
      order. */
  function VerifiersBefore(users: seq<string>, fetches: seq<FetchResult>, did: Option<string>, n: nat): (r: seq<string>)
    requires |users| == |fetches| && n <= |users|
    ensures n == 0 ==> r == []
  {
    if n == 0 then []
    else VerifiersBefore(users, fetches, did, n - 1) + Repeat(users[n - 1], PushCount(fetches[n - 1], did))
  }

  /** The verifier list after processing every user. */
  function Verifiers(users: seq<string>, fetches: seq<FetchResult>, did: Option<string>): (r: seq<string>)
    requires |users| == |fetches|
    ensures forall x :: x in r ==> x in users
  {
    VerifiersFromUsers(users, fetches, did, |users|);
    VerifiersBefore(users, fetches, did, |users|)
  }

  /** Only trusted users are ever pushed. */
  lemma {:induction false} VerifiersFromUsers(users: seq<string>, fetches: seq<FetchResult>, did: Option<string>, n: nat)
    requires |users| == |fetches| && n <= |users|
    ensures forall x :: x in VerifiersBefore(users, fetches, did, n) ==> x in users[..n]
  {
    if n > 0 {
      VerifiersFromUsers(users, fetches, did, n - 1);
      RepeatMembers(users[n - 1], PushCount(fetches[n - 1], did));
      assert users[..n] == users[..n - 1] + [users[n - 1]];
    }
  }

  /** The outcome object for one user. */
  function OutcomeOf(user: string, fetch: FetchResult): (outcome: Outcome)
    ensures outcome.trustedUser == user
    ensures outcome.success <==> fetch.Fetched?
    ensures fetch.Fetched? ==> outcome.error.None?
    ensures fetch.FetchFailed? ==> outcome.error == Some(fetch.error)
  {
    match fetch
    case Fetched(_) => Outcome(user, true, None)
    case FetchFailed(error) => Outcome(user, false, Some(error))
  }

  /** The outcomes `Promise.all` collects: one per trusted user, in list order, successful exactly
      when that user's fetch succeeded. */
  function Outcomes(users: seq<string>, fetches: seq<FetchResult>): (r: seq<Outcome>)
    requires |users| == |fetches|
    ensures |r| == |users|
    ensures forall i :: 0 <= i < |r| ==> r[i].trustedUser == users[i] && (r[i].success <==> fetches[i].Fetched?)
    ensures forall i :: 0 <= i < |r| ==> (r[i].error.Some? <==> fetches[i].FetchFailed?)
  {
    seq(|users|, i requires 0 <= i < |users| => OutcomeOf(users[i], fetches[i]))
  }

  /** Users after the first `n` do not affect the verifiers of the first `n`. */
  lemma {:induction false} VerifiersBeforeExtend(us: seq<string>, fs: seq<FetchResult>, vs: seq<string>, gs: seq<FetchResult>, did: Option<string>, n: nat)
    requires |us| == |fs| && |vs| == |gs| && n <= |us|
    ensures VerifiersBefore(us + vs, fs + gs, did, n) == VerifiersBefore(us, fs, did, n)
  {
    if n > 0 {
      VerifiersBeforeExtend(us, fs, vs, gs, did, n - 1);
      assert (us + vs)[n - 1] == us[n - 1] && (fs + gs)[n - 1] == fs[n - 1];
    }
  }

  /** Processing a first block of users and then `n` users of a second block. */
  lemma {:induction false} VerifiersBeforeConcat(us: seq<string>, fs: seq<FetchResult>, vs: seq<string>, gs: seq<FetchResult>, did: Option<string>, n: nat)
    requires |us| == |fs| && |vs| == |gs| && n <= |vs|
    ensures VerifiersBefore(us + vs, fs + gs, did, |us| + n) == Verifiers(us, fs, did) + VerifiersBefore(vs, gs, did, n)
  {
    if n == 0 {
      VerifiersBeforeExtend(us, fs, vs, gs, did, |us|);
    } else {
      var m := |us| + n - 1;
      var block := Repeat(vs[n - 1], PushCount(gs[n - 1], did));
      assert (us + vs)[m] == vs[n - 1];
      assert (fs + gs)[m] == gs[n - 1];
      var left := VerifiersBefore(us + vs, fs + gs, did, m);
      calc {
        VerifiersBefore(us + vs, fs + gs, did, m + 1);
        left + Repeat((us + vs)[m], PushCount((fs + gs)[m], did));
        left + block;
        { VerifiersBeforeConcat(us, fs, vs, gs, did, n - 1); }
        (Verifiers(us, fs, did) + VerifiersBefore(vs, gs, did, n - 1)) + block;
        Verifiers(us, fs, did) + (VerifiersBefore(vs, gs, did, n - 1) + block);
      }
    }
  }

  /** Processing two blocks of users one after the other concatenates their verifier lists. */
  lemma VerifiersConcat(us: seq<string>, fs: seq<FetchResult>, vs: seq<string>, gs: seq<FetchResult>, did: Option<string>)
    requires |us| == |fs| && |vs| == |gs|
    ensures Verifiers(us + vs, fs + gs, did) == Verifiers(us, fs, did) + Verifiers(vs, gs, did)
  {
    VerifiersBeforeConcat(us, fs, vs, gs, did, |vs|);
  }

  /** The users' fetches settle in an order the script does not control; the verifier list it
      ends up with holds the same handles, the same number of times, whichever block of users
      settles first. */
  lemma VerifiersOrderIrrelevant(us: seq<string>, fs: seq<FetchResult>, vs: seq<string>, gs: seq<FetchResult>, did: Option<string>)
    requires |us| == |fs| && |vs| == |gs|
    ensures multiset(Verifiers(us + vs, fs + gs, did)) == multiset(Verifiers(vs + us, gs + fs, did))
  {
    VerifiersConcat(us, fs, vs, gs, did);
    VerifiersConcat(vs, gs, us, fs, did);
  }

  /** Each trusted user paired with what fetching their records produced. */
  function Pairs(users: seq<string>, fetches: seq<FetchResult>): (r: seq<(string, FetchResult)>)
    requires |users| == |fetches|
    ensures |r| == |users|
  {
    seq(|users|, i requires 0 <= i < |users| => (users[i], fetches[i]))
  }

  /** Pairing distributes over concatenation. */
  lemma PairsConcat(us: seq<string>, fs: seq<FetchResult>, vs: seq<string>, gs: seq<FetchResult>)
    requires |us| == |fs| && |vs| == |gs|
    ensures Pairs(us + vs, fs + gs) == Pairs(us, fs) + Pairs(vs, gs)
  {
    var l, r := Pairs(us + vs, fs + gs), Pairs(us, fs) + Pairs(vs, gs);
    forall i | 0 <= i < |l|
      ensures l[i] == r[i]
    {
      if i < |us| {
        assert (us + vs)[i] == us[i] && (fs + gs)[i] == fs[i];
      } else {
        assert (us + vs)[i] == vs[i - |us|] && (fs + gs)[i] == gs[i - |us|];
      }
    }
  }

  /** A single user's verifier list is that user's pushes. */
  lemma VerifiersSingle(u: string, f: FetchResult, did: Option<string>)
    ensures Verifiers([u], [f], did) == Repeat(u, PushCount(f, did))
  {
    assert VerifiersBefore([u], [f], did, 0) == [];
  }

  /** Taking the j-th user out of the list takes exactly that user's pushes out of the verifier
      multiset. */
  lemma VerifiersWithout(vs: seq<string>, gs: seq<FetchResult>, did: Option<string>, j: nat)
    requires |vs| == |gs| && j < |vs|
    ensures multiset(Verifiers(vs, gs, did)) ==
            multiset(Verifiers(vs[..j] + vs[j + 1..], gs[..j] + gs[j + 1..], did)) +
            multiset(Repeat(vs[j], PushCount(gs[j], did)))
  {
    var a, fa, b, fb := vs[..j], gs[..j], vs[j + 1..], gs[j + 1..];
    assert vs == a + ([vs[j]] + b);
    assert gs == fa + ([gs[j]] + fb);
    VerifiersConcat(a, fa, [vs[j]] + b, [gs[j]] + fb, did);
    VerifiersConcat([vs[j]], [gs[j]], b, fb, did);
    VerifiersSingle(vs[j], gs[j], did);
    VerifiersConcat(a, fa, b, fb, did);
  }

  /** Taking the j-th user out of the list takes exactly their pair out of the pair multiset. */
  lemma PairsWithout(vs: seq<string>, gs: seq<FetchResult>, j: nat)
    requires |vs| == |gs| && j < |vs|
    ensures multiset(Pairs(vs, gs)) ==
            multiset(Pairs(vs[..j] + vs[j + 1..], gs[..j] + gs[j + 1..])) + multiset{(vs[j], gs[j])}
  {
    var a, fa, b, fb := vs[..j], gs[..j], vs[j + 1..], gs[j + 1..];
    assert vs == a + [vs[j]] + b && gs == fa + [gs[j]] + fb;
    PairsConcat(a, fa, [vs[j]], [gs[j]]);
    PairsConcat(a + [vs[j]], fa + [gs[j]], b, fb);
    PairsConcat(a, fa, b, fb);
    assert Pairs([vs[j]], [gs[j]]) == [(vs[j], gs[j])];
  }

  /** The users' fetches settle in an order the script does not control. Whatever that order,
      as long as every user is processed once with their own fetch result, the verifier list holds
      the same handles the same number of times. */
  lemma {:induction false} VerifiersPermutationInvariant(us: seq<string>, fs: seq<FetchResult>, vs: seq<string>, gs: seq<FetchResult>, did: Option<string>)
    requires |us| == |fs| && |vs| == |gs|
    requires multiset(Pairs(us, fs)) == multiset(Pairs(vs, gs))
    ensures multiset(Verifiers(us, fs, did)) == multiset(Verifiers(vs, gs, did))
    decreases |us|
  {
    if |us| == 0 {
      assert |multiset(Pairs(vs, gs))| == 0;
    } else {
      var n := |us| - 1;
      var p := (us[n], fs[n]);
      PairsWithout(us, fs, n);
      assert p in multiset(Pairs(vs, gs));
      var j :| 0 <= j < |vs| && Pairs(vs, gs)[j] == p;
      assert (vs[j], gs[j]) == p;
      PairsWithout(vs, gs, j);
      var us', fs', vs', gs' := us[..n] + us[n + 1..], fs[..n] + fs[n + 1..], vs[..j] + vs[j + 1..], gs[..j] + gs[j + 1..];
      var left, right := multiset(Pairs(us', fs')), multiset(Pairs(vs', gs'));
      assert left + multiset{p} == right + multiset{p};
      assert left == (left + multiset{p}) - multiset{p} == (right + multiset{p}) - multiset{p} == right;
      VerifiersPermutationInvariant(us', fs', vs', gs', did);
      VerifiersWithout(vs, gs, did, j);
      VerifiersWithout(us, fs, did, n);
    }
  }

  /** Among the first `n` users, a handle is a verifier exactly when one of them with that handle
      fetched successfully and has a record naming `did`. */
  lemma {:induction false} InVerifiersBeforeIff(users: seq<string>, fetches: seq<FetchResult>, did: Option<string>, u: string, n: nat)
    requires |users| == |fetches| && n <= |users|
    ensures u in VerifiersBefore(users, fetches, did, n) <==>
            exists i :: 0 <= i < n && users[i] == u && HasVerified(fetches[i], did)
  {
    if n > 0 {
      InVerifiersBeforeIff(users, fetches, did, u, n - 1);
      RepeatMembers(users[n - 1], PushCount(fetches[n - 1], did));
      PushCountPositive(fetches[n - 1], did);
      if exists i :: 0 <= i < n && users[i] == u && HasVerified(fetches[i], did) {
        var i :| 0 <= i < n && users[i] == u && HasVerified(fetches[i], did);
        assert i < n - 1 || (users[n - 1] == u && HasVerified(fetches[n - 1], did));
      }
    }
  }

  /** A handle is among the verifiers exactly when some trusted-list entry with that handle
      fetched successfully and has a record naming `did`. */
  lemma InVerifiersIff(users: seq<string>, fetches: seq<FetchResult>, did: Option<string>, u: string)
    requires |users| == |fetches|
    ensures u in Verifiers(users, fetches, did) <==>
            exists i :: 0 <= i < |users| && users[i] == u && HasVerified(fetches[i], did)
  {
    InVerifiersBeforeIff(users, fetches, did, u, |users|);
  }

  /** Among the first `n` users of a duplicate-free list, the i-th occurs among the verifiers
      once per record of theirs naming `did` when i < n, and not at all otherwise. */
  lemma {:induction false} VerifierMultiplicityBefore(users: seq<string>, fetches: seq<FetchResult>, did: Option<string>, i: nat, n: nat)
    requires |users| == |fetches| && i < |users| && n <= |users|
    requires forall j :: 0 <= j < |users| && users[j] == users[i] ==> j == i
    ensures multiset(VerifiersBefore(users, fetches, did, n))[users[i]] == if i < n then PushCount(fetches[i], did) else 0
  {
    if n > 0 {
      var u, v, k := users[i], users[n - 1], PushCount(fetches[n - 1], did);
      var prefix := VerifiersBefore(users, fetches, did, n - 1);
      assert VerifiersBefore(users, fetches, did, n) == prefix + Repeat(v, k);
      CountAfterBlock(prefix, v, k, u);
      VerifierMultiplicityBefore(users, fetches, did, i, n - 1);
      if i == n - 1 {
        assert multiset(prefix)[u] == 0;
      } else {
        assert u != v;
      }
    }
  }

  /** Appending a block of copies of `v` raises the count of `v` by the block's length and leaves
      every other count alone. */
  lemma CountAfterBlock(prefix: seq<string>, v: string, k: nat, u: string)
    ensures multiset(prefix + Repeat(v, k))[u] == multiset(prefix)[u] + if u == v then k else 0
  {
    RepeatMembers(v, k);
    if u != v {
      assert u !in Repeat(v, k);
    }
  }

  /** In a duplicate-free trusted list, each user occurs among the verifiers exactly once per
      record of theirs that names `did`. */
  lemma VerifierMultiplicity(users: seq<string>, fetches: seq<FetchResult>, did: Option<string>, i: nat)
    requires |users| == |fetches| && NoDuplicates(users) && i < |users|
    ensures multiset(Verifiers(users, fetches, did))[users[i]] == PushCount(fetches[i], did)
  {
    VerifierMultiplicityBefore(users, fetches, did, i, |users|);
  }

  /** In a duplicate-free trusted list, a user whose fetch failed is never a verifier. */
  lemma FailedUserNeverVerifies(users: seq<string>, fetches: seq<FetchResult>, did: Option<string>, i: nat)
    requires |users| == |fetches| && NoDuplicates(users) && i < |users|
    requires fetches[i].FetchFailed?
    ensures users[i] !in Verifiers(users, fetches, did)
  {
    VerifierMultiplicity(users, fetches, did, i);
  }

  /** One user's fetch failing does not change how often any other handle is a verifier. */
  lemma FailureIsolated(users: seq<string>, fetches: seq<FetchResult>, did: Option<string>, i: nat, error: string, u: string)
    requires |users| == |fetches| && i < |users| && u != users[i]
    ensures multiset(Verifiers(users, fetches[i := FetchFailed(error)], did))[u] ==
            multiset(Verifiers(users, fetches, did))[u]
  {
    var failed := fetches[i := FetchFailed(error)];
    assert failed[..i] + failed[i + 1..] == fetches[..i] + fetches[i + 1..];
    VerifiersWithout(users, fetches, did, i);
    VerifiersWithout(users, failed, did, i);
    RepeatMembers(users[i], PushCount(fetches[i], did));
    RepeatMembers(users[i], PushCount(failed[i], did));
  }

  /** The verifier list is non-empty exactly when some user's successful fetch has a record
      naming `did`; in particular it is empty when every fetch failed. */
  lemma VerifiedIffSomeRecord(users: seq<string>, fetches: seq<FetchResult>, did: Option<string>)
    requires |users| == |fetches|
    ensures Verifiers(users, fetches, did) != [] <==>
            exists i :: 0 <= i < |users| && HasVerified(fetches[i], did)
  {
    var v := Verifiers(users, fetches, did);
    if v != [] {
      InVerifiersIff(users, fetches, did, v[0]);
    }
    if exists i :: 0 <= i < |users| && HasVerified(fetches[i], did) {
      var i :| 0 <= i < |users| && HasVerified(fetches[i], did);
      InVerifiersIff(users, fetches, did, users[i]);
    }
  }

  /** The state `checkTrustedUserVerifications` reads and writes: the trusted-user store and the
      module-level `profileVerifiers` list. */
  class VerificationChecker {
    const store: TrustedUserStore
    var profileVerifiers: seq<string>

    constructor (store: TrustedUserStore)
      ensures this.store == store && profileVerifiers == []
    {
      this.store := store;
      profileVerifiers := [];
    }

    /** The callback run for one trusted user: when the fetch succeeded and the response has a
        non-empty `records` array, the user is pushed onto `profileVerifiers` for each record
        naming the target; the result is the user's outcome object. */
    method CheckTrustedUser(trustedUser: string, fetch: FetchResult, currentProfileDid: Option<string>)
      returns (outcome: Outcome)
      modifies this
      ensures profileVerifiers == old(profileVerifiers) + Repeat(trustedUser, PushCount(fetch, currentProfileDid))
      ensures outcome == OutcomeOf(trustedUser, fetch)
    {
      match fetch
      case FetchFailed(_) =>
        outcome := OutcomeOf(trustedUser, fetch);
      case Fetched(data) =>
        if data.records.Some? && |data.records.value| > 0 {
          var records := data.records.value;
          var j := 0;
          while j < |records|
            invariant 0 <= j <= |records|
            invariant profileVerifiers == old(profileVerifiers) + Repeat(trustedUser, MatchesBefore(records, currentProfileDid, j))
          {
            var record := records[j];
            RepeatSnoc(trustedUser, MatchesBefore(records, currentProfileDid, j));
            if IsVerificationOf(record, currentProfileDid) {
              profileVerifiers := profileVerifiers + [trustedUser];
            }
            j := j + 1;
          }
        }
        outcome := OutcomeOf(trustedUser, fetch);
    }

    /** `checkTrustedUserVerifications(currentProfileDid)`, where `fetches[i]` is what fetching the
        records of the i-th trusted user produced. `outcomes` holds one entry per fetch performed,
        so an empty trusted list performs none. */
    method CheckTrustedUserVerifications(currentProfileDid: Option<string>, fetches: seq<FetchResult>)
      returns (verified: bool, outcomes: seq<Outcome>)
      requires |fetches| == |store.Users()|
      modifies this
      ensures store.Users() == [] ==> !verified && profileVerifiers == [] && outcomes == []
      ensures profileVerifiers == Verifiers(store.Users(), fetches, currentProfileDid)
      ensures outcomes == Outcomes(store.Users(), fetches)
      ensures verified <==> profileVerifiers != []
    {
      var trustedUsers := store.GetTrustedUsers();
      profileVerifiers := [];
      if |trustedUsers| == 0 {
        return false, [];
      }
      outcomes := [];
      var i := 0;
      while i < |trustedUsers|
        invariant 0 <= i <= |trustedUsers|
        invariant profileVerifiers == VerifiersBefore(trustedUsers, fetches, currentProfileDid, i)
        invariant |outcomes| == i
        invariant forall k :: 0 <= k < i ==> outcomes[k] == OutcomeOf(trustedUsers[k], fetches[k])
      {
        var outcome := CheckTrustedUser(trustedUsers[i], fetches[i], currentProfileDid);
        outcomes := outcomes + [outcome];
        i := i + 1;
      }
      verified := |profileVerifiers| > 0;
    }
  }

  /** Two trusted users: alice has verified "did:1", bob's fetch fails. Checking "did:1" reports
      alice alone and records bob's failure; checking "did:3" reports nobody. */
  method CheckScenario(store: TrustedUserStore)
    requires store.Users() == ["alice", "bob"]
  {
    var checker := new VerificationChecker(store);
    var hit := VerificationRecord(Some(RecordValue(Some("did:1"))));
    var other := VerificationRecord(Some(RecordValue(Some("did:2"))));
    var alice := Fetched(ListRecordsResponse(Some([hit, other])));
    var bob := FetchFailed("network error");
    var users, fetches := ["alice", "bob"], [alice, bob];

    var did1 := Some("did:1");
    assert IsVerificationOf(hit, did1) && !IsVerificationOf(other, did1);
    assert MatchesBefore([hit, other], did1, 1) == 1;
    assert MatchesBefore([hit, other], did1, 2) == 1;
    assert PushCount(alice, did1) == 1;
    assert PushCount(bob, did1) == 0;
    assert VerifiersBefore(users, fetches, did1, 1) == Repeat("alice", 1) == ["alice"];
    assert Repeat("bob", 0) == [];
    assert Verifiers(users, fetches, did1) == ["alice"];
    var verified, outcomes := checker.CheckTrustedUserVerifications(Some("did:1"), fetches);
    assert verified && checker.profileVerifiers == ["alice"];
    assert outcomes[1] == Outcome("bob", false, Some("network error"));

    var did3 := Some("did:3");
    assert !IsVerificationOf(hit, did3) && !IsVerificationOf(other, did3);
    assert MatchesBefore([hit, other], did3, 1) == 0;
    assert MatchesBefore([hit, other], did3, 2) == 0;
    assert PushCount(alice, did3) == 0 && PushCount(bob, did3) == 0;
    assert VerifiersBefore(users, fetches, did3, 1) == [];
    verified, outcomes := checker.CheckTrustedUserVerifications(Some("did:3"), fetches);
    assert !verified && checker.profileVerifiers == [];
  }
}
